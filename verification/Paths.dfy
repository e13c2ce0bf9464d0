/**
 Relative paths: the string form that is stored and compared, and the component form that the
 directory walk uses.
 */
module Paths {
  import opened Domain

  const MAX_PATH_BYTES: nat := 4096
  const MAX_COMPONENT_BYTES: nat := 255
  const MAX_COMPONENTS: nat := 255

  /** The pieces of `s` between slashes; a string without a slash is one piece. */
  function Split(s: string): (pieces: seq<string>)
    ensures |pieces| >= 1
  {
    if s == "" then [""]
    else
      var rest := Split(s[1..]);
      if s[0] == '/' then [""] + rest else [[s[0]] + rest[0]] + rest[1..]
  }

  /** The slash-separated string of a nonempty list of pieces. */
  function Join(pieces: seq<string>): string
    requires |pieces| >= 1
  {
    if |pieces| == 1 then pieces[0] else pieces[0] + "/" + Join(pieces[1..])
  }

  /** A piece that the path iterator drops: repeated and trailing slashes, and "." after the first piece. */
  predicate Ignorable(piece: string) {
    piece == "" || piece == "."
  }

  function Keep(pieces: seq<string>): seq<string> {
    if pieces == [] then []
    else if Ignorable(pieces[0]) then Keep(pieces[1..])
    else [pieces[0]] + Keep(pieces[1..])
  }

  /** The components that walking the path visits. */
  function Components(s: string): seq<string> {
    Keep(Split(s))
  }

  /** A name that can be looked up in a directory (checked before every child system call). */
  predicate ValidComponent(name: string) {
    name != "" && name != "." && name != ".." && '/' !in name && '\0' !in name
  }

  /** A path string that is exactly its components joined with single slashes. */
  predicate Canonical(s: string) {
    forall piece :: piece in Split(s) ==> !Ignorable(piece)
  }

  function Utf8Width(c: char): nat {
    if c as int < 0x80 then 1 else if c as int < 0x800 then 2 else if c as int < 0x1_0000 then 3 else 4
  }

  function ByteLength(s: string): nat {
    if s == "" then 0 else Utf8Width(s[0]) + ByteLength(s[1..])
  }

  /** Unicode general category Cc. */
  predicate IsControl(c: char) {
    c as int < 0x20 || 0x7F <= c as int < 0xA0
  }

  // ------------------------------------------------------------------ Split and Join

  lemma {:induction false} SplitWithoutSlash(a: string)
    requires '/' !in a
    ensures Split(a) == [a]
  {
    if a != "" {
      assert '/' !in a[1..];
      SplitWithoutSlash(a[1..]);
      assert a == [a[0]] + a[1..];
    }
  }

  /** Splitting distributes over a slash. */
  lemma {:induction false} SplitAtSlash(a: string, b: string)
    ensures Split(a + "/" + b) == Split(a) + Split(b)
  {
    var whole := a + "/" + b;
    if a == "" {
      assert whole[1..] == b;
    } else {
      assert whole[0] == a[0] && whole[1..] == a[1..] + "/" + b;
      SplitAtSlash(a[1..], b);
    }
  }

  lemma {:induction false} JoinSplit(s: string)
    ensures Join(Split(s)) == s
  {
    if s != "" {
      var rest := Split(s[1..]);
      JoinSplit(s[1..]);
      if s[0] == '/' {
        assert ([""] + rest)[1..] == rest;
        assert s == "" + "/" + s[1..];
      } else {
        var pieces := [[s[0]] + rest[0]] + rest[1..];
        assert pieces[1..] == rest[1..];
        assert s == [s[0]] + s[1..];
      }
    }
  }

  lemma {:induction false} SplitJoin(pieces: seq<string>)
    requires |pieces| >= 1
    requires forall p :: p in pieces ==> '/' !in p
    ensures Split(Join(pieces)) == pieces
  {
    SplitWithoutSlash(pieces[0]);
    if |pieces| > 1 {
      SplitJoin(pieces[1..]);
      SplitAtSlash(pieces[0], Join(pieces[1..]));
      assert pieces == [pieces[0]] + pieces[1..];
    }
  }

  lemma {:induction false} JoinConcat(a: seq<string>, b: seq<string>)
    requires |a| >= 1 && |b| >= 1
    ensures Join(a + b) == Join(a) + "/" + Join(b)
  {
    if |a| == 1 {
      assert (a + b)[1..] == b;
    } else {
      assert (a + b)[1..] == a[1..] + b;
      JoinConcat(a[1..], b);
      assert Join(a + b) == a[0] + "/" + (Join(a[1..]) + "/" + Join(b));
    }
  }

  lemma {:induction false} KeepAll(pieces: seq<string>)
    requires forall p :: p in pieces ==> !Ignorable(p)
    ensures Keep(pieces) == pieces
  {
    if pieces != [] {
      KeepAll(pieces[1..]);
    }
  }

  lemma CanonicalComponents(s: string)
    requires Canonical(s)
    ensures Components(s) == Split(s)
    ensures |Components(s)| >= 1
  {
    KeepAll(Split(s));
  }

  // ------------------------------------------------------------------ The prefix test

  predicate StrictPrefix<T(==)>(a: seq<T>, b: seq<T>) {
    |a| < |b| && a <= b
  }

  /** The text test "starts with dir followed by a slash" compares the lists of pieces. */
  lemma PrefixTestOnPieces(dir: string, file: string)
    ensures dir + "/" <= file <==> StrictPrefix(Split(dir), Split(file))
  {
    if dir + "/" <= file {
      var rest := file[|dir| + 1..];
      assert file == dir + "/" + rest;
      SplitAtSlash(dir, rest);
    }
    if StrictPrefix(Split(dir), Split(file)) {
      var rest := Split(file)[|Split(dir)|..];
      assert Split(file) == Split(dir) + rest;
      JoinSplit(dir);
      JoinSplit(file);
      JoinConcat(Split(dir), rest);
      assert file == dir + "/" + Join(rest);
    }
  }

  /**
   For a canonical path the text test decides "lies strictly below the directory" exactly when the
   directory's own string is canonical; a directory spelled otherwise is never matched.
   */
  lemma PrefixTestExact(dir: string, file: string)
    requires Canonical(file)
    ensures dir + "/" <= file <==> Canonical(dir) && StrictPrefix(Components(dir), Components(file))
  {
    PrefixTestOnPieces(dir, file);
    CanonicalComponents(file);
    if dir + "/" <= file {
      forall piece | piece in Split(dir) ensures !Ignorable(piece) {
        var i :| 0 <= i < |Split(dir)| && Split(dir)[i] == piece;
        assert piece == Split(file)[i];
      }
    }
    if Canonical(dir) {
      CanonicalComponents(dir);
    }
  }

  lemma PiecesOfExample()
    ensures Split("a/") == ["a", ""] && Components("a/") == ["a"]
    ensures Split("a/b") == ["a", "b"] && Components("a/b") == ["a", "b"]
  {
    SplitWithoutSlash("a");
    SplitWithoutSlash("b");
    SplitAtSlash("a", "");
    SplitAtSlash("a", "b");
    assert "a" + "/" + "" == "a/" && "a" + "/" + "b" == "a/b";
    assert Keep(["a", ""]) == ["a"] + Keep([""]);
    assert Keep(["a", "b"]) == ["a"] + Keep(["b"]);
  }

  lemma {:induction false} ShortLength(s: string)
    requires |s| <= 3 && forall c :: c in s ==> c as int < 0x80
    ensures ByteLength(s) == |s|
  {
    if s != "" {
      assert s[0] in s && forall c :: c in s[1..] ==> c in s;
      ShortLength(s[1..]);
    }
  }

  /** The text test misses a child when the directory is spelled with a trailing slash. */
  lemma TrailingSlashMissesChild()
    ensures IsRelPath("a/") && IsRelPath("a/b")
    ensures StrictPrefix(Components("a/"), Components("a/b"))
    ensures !("a/" + "/" <= "a/b")
  {
    hide Split, Keep, ByteLength;
    PiecesOfExample();
    ShortLength("a/");
    ShortLength("a/b");
    ShortLength("a");
    ShortLength("b");
    assert ("a/" + "/")[2] == '/' && "a/b"[2] == 'b';
  }

  /** The text test also takes a path for a child of itself when the path is spelled with a trailing slash. */
  lemma TrailingSlashLooksBelow()
    ensures IsRelPath("a") && IsRelPath("a/") && Canonical("a")
    ensures "a" + "/" <= "a/" && Components("a") == Components("a/")
  {
    hide Split, Keep, ByteLength;
    PiecesOfExample();
    SplitWithoutSlash("a");
    KeepAll(["a"]);
    ShortLength("a/");
    ShortLength("a");
  }

  /** How many pieces come before the first one that the path iterator drops. */
  function CleanPieces(pieces: seq<string>): (n: nat)
    ensures n <= |pieces|
  {
    if pieces == [] || Ignorable(pieces[0]) then 0 else 1 + CleanPieces(pieces[1..])
  }

  lemma {:induction false} CleanPiecesAreKept(pieces: seq<string>)
    ensures
      var n := CleanPieces(pieces);
      && (forall i :: 0 <= i < n ==> !Ignorable(pieces[i]))
      && (n < |pieces| ==> Ignorable(pieces[n]))
      && pieces[..n] <= Keep(pieces)
      && (n == |pieces| ==> Keep(pieces) == pieces)
  {
    if pieces != [] && !Ignorable(pieces[0]) {
      CleanPiecesAreKept(pieces[1..]);
      var n := CleanPieces(pieces);
      assert pieces[..n] == [pieces[0]] + pieces[1..][..n - 1];
      assert forall i :: 0 < i < n ==> pieces[i] == pieces[1..][i - 1];
    }
  }

  /** A list without dropped pieces is a proper prefix of `pieces` only within their clean part. */
  lemma PrefixWithinClean(dir: seq<string>, pieces: seq<string>)
    requires forall p :: p in dir ==> !Ignorable(p)
    ensures StrictPrefix(dir, pieces) <==> |dir| < |pieces| && |dir| <= CleanPieces(pieces) && dir <= pieces
  {
    CleanPiecesAreKept(pieces);
    var n := CleanPieces(pieces);
    assert |dir| > n ==> !Ignorable(dir[n]);
  }

  /** The text test is right about this file for every canonical directory. */
  ghost predicate TestIsRight(file: string) {
    forall dir :: Canonical(dir) ==> TestIsRightFor(dir, file)
  }

  ghost predicate TestIsRightFor(dir: string, file: string) {
    dir + "/" <= file <==> StrictPrefix(Components(dir), Components(file))
  }

  lemma TestOnClean(dir: string, file: string)
    requires Canonical(dir)
    ensures
      var d, f := Components(dir), Split(file);
      dir + "/" <= file <==> |d| < |f| && |d| <= CleanPieces(f) && d <= f
  {
    PrefixTestOnPieces(dir, file);
    CanonicalComponents(dir);
    PrefixWithinClean(Split(dir), Split(file));
  }

  /** The directory with these components, as a canonical string. */
  lemma CanonicalDirectory(d: seq<string>, file: string)
    requires d != [] && forall p :: p in d ==> p in Split(file) && !Ignorable(p)
    ensures Canonical(Join(d)) && Components(Join(d)) == d
  {
    SplitPieces(file);
    SplitJoin(d);
    KeepAll(d);
  }

  lemma RightWhenSingle(dir: string, file: string)
    requires Canonical(dir) && (Canonical(file) || |Components(file)| == CleanPieces(Split(file)) + 1)
    ensures TestIsRightFor(dir, file)
  {
    hide Split, Keep;
    var f, n := Split(file), CleanPieces(Split(file));
    TestOnClean(dir, file);
    CleanPiecesAreKept(f);
    if n == |f| {
      assert Components(file) == f;
    } else {
      assert !Canonical(file) by { assert f[n] in f; }
      assert Components(file)[..n] == f[..n];
    }
  }

  lemma WrongOtherwise(file: string)
    requires CleanPieces(Split(file)) >= 1 && !Canonical(file)
    requires |Components(file)| != CleanPieces(Split(file)) + 1
    ensures !TestIsRight(file)
  {
    hide Split, Keep;
    var f, n, kept := Split(file), CleanPieces(Split(file)), Components(file);
    CleanPiecesAreKept(f);
    KeepMembers(f);
    assert n == |f| ==> forall p :: p in f ==> !Ignorable(p);
    var d := if |kept| == n then f[..n] else kept[..n + 1];
    assert forall p :: p in d ==> p in f && !Ignorable(p);
    CanonicalDirectory(d, file);
    TestOnClean(Join(d), file);
    assert kept[..n] == f[..n];
    assert !TestIsRightFor(Join(d), file);
  }

  /**
   For a parsed path the text test is right about every canonical directory exactly when the path is
   canonical or has exactly one component after the first empty or "." piece.
   */
  lemma PrefixTestExactForParsed(file: string)
    requires IsRelPath(file)
    ensures TestIsRight(file) <==> Canonical(file) || |Components(file)| == CleanPieces(Split(file)) + 1
  {
    assert CleanPieces(Split(file)) >= 1 by { FirstPieceIsKept(file); }
    if Canonical(file) || |Components(file)| == CleanPieces(Split(file)) + 1 {
      forall dir | Canonical(dir) ensures TestIsRightFor(dir, file) {
        RightWhenSingle(dir, file);
      }
    } else {
      WrongOtherwise(file);
    }
  }

  lemma FirstPieceIsKept(file: string)
    requires IsRelPath(file)
    ensures !Ignorable(Split(file)[0])
  {
  }

  // ------------------------------------------------------------------ Parsing

  /** The relative paths that the parser accepts, besides the empty one. */
  predicate IsRelPath(s: string) {
    && s != ""
    && ByteLength(s) <= MAX_PATH_BYTES
    && (forall c :: c in s ==> !IsControl(c))
    && s[0] != '/'
    && Split(s)[0] != "."
    && ".." !in Split(s)
    && (forall p :: p in Components(s) ==> ByteLength(p) <= MAX_COMPONENT_BYTES)
    && 1 <= |Components(s)| <= MAX_COMPONENTS
  }

  lemma {:induction false} KeepExtend(pieces: seq<string>, i: nat)
    requires i < |pieces|
    ensures Keep(pieces[..i + 1]) == Keep(pieces[..i]) + (if Ignorable(pieces[i]) then [] else [pieces[i]])
  {
    if i == 0 {
      assert pieces[..1] == [pieces[0]];
      assert Keep([pieces[0]][1..]) == [];
    } else {
      var tail := pieces[1..];
      KeepExtend(tail, i - 1);
      assert pieces[..i + 1][1..] == tail[..i];
      assert pieces[..i][1..] == tail[..i - 1];
      assert pieces[..i + 1][0] == pieces[0] == pieces[..i][0];
    }
  }

  lemma {:induction false} KeepPrefix(pieces: seq<string>, i: nat)
    requires i <= |pieces|
    ensures Keep(pieces[..i]) <= Keep(pieces)
    decreases |pieces| - i
  {
    if i == |pieces| {
      assert pieces[..i] == pieces;
    } else {
      KeepExtend(pieces, i);
      KeepPrefix(pieces, i + 1);
    }
  }

  lemma {:induction false} SplitPieces(s: string)
    ensures forall p, c :: p in Split(s) && c in p ==> c in s && c != '/'
  {
    if s != "" {
      SplitPieces(s[1..]);
    }
  }

  lemma {:induction false} KeepMembers(pieces: seq<string>)
    ensures forall p :: p in Keep(pieces) <==> p in pieces && !Ignorable(p)
  {
    if pieces != [] {
      KeepMembers(pieces[1..]);
      assert pieces == [pieces[0]] + pieces[1..];
    }
  }

  /** Every component of a parsed path can be looked up in a directory. */
  lemma ComponentsAreValid(s: string)
    requires IsRelPath(s)
    ensures forall p :: p in Components(s) ==> ValidComponent(p)
  {
    SplitPieces(s);
    KeepMembers(Split(s));
    assert IsControl('\0');
  }

  /** Parses a relative path; the parsed value keeps the string as given. */
  method Parse(s: string) returns (r: Option<string>)
    ensures r.Some? <==> s == "" || IsRelPath(s)
    ensures r.Some? ==> r.value == s
  {
    if s == "" {
      return Some(s);
    }
    if ByteLength(s) > MAX_PATH_BYTES || (exists c :: c in s && IsControl(c)) || s[0] == '/' {
      return None;
    }
    var pieces := Split(s);
    assert Components(s) == Keep(pieces);
    var count := 0;
    for i := 0 to |pieces|
      invariant count == |Keep(pieces[..i])| <= MAX_COMPONENTS
      invariant forall p :: p in Keep(pieces[..i]) ==> ByteLength(p) <= MAX_COMPONENT_BYTES
      invariant ".." !in pieces[..i]
      invariant i > 0 ==> pieces[0] != "."
    {
      KeepExtend(pieces, i);
      KeepPrefix(pieces, i + 1);
      assert pieces[..i + 1] == pieces[..i] + [pieces[i]];
      if pieces[i] == ".." || (i == 0 && pieces[i] == ".") {
        return None;
      }
      if !Ignorable(pieces[i]) {
        assert pieces[i] in Keep(pieces[..i + 1]);
        if ByteLength(pieces[i]) > MAX_COMPONENT_BYTES {
          assert pieces[i] in Keep(pieces);
          return None;
        }
        count := count + 1;
        if count > MAX_COMPONENTS {
          return None;
        }
      }
    }
    assert pieces[..|pieces|] == pieces;
    if count == 0 {
      return None;
    }
    return Some(s);
  }

  /** Appends a parsed sub-path the way a path buffer does: a separator only where one is needed. */
  function Push(prefix: string, sub: string): string {
    if prefix == "" || prefix[|prefix| - 1] == '/' then prefix + sub else prefix + "/" + sub
  }

  /** Joins a child name to a path; fails exactly when the name itself does not parse. */
  method JoinChild(prefix: string, sub: string) returns (r: Option<string>)
    ensures r.Some? <==> sub == "" || IsRelPath(sub)
    ensures r.Some? ==> r.value == Push(prefix, sub)
  {
    var parsed := Parse(sub);
    match parsed
    case None => r := None;
    case Some(p) => r := Some(Push(prefix, p));
  }

  /** A separator is added only where there is none yet. */
  lemma PushInstances()
    ensures Push("", "b") == "b" && Push("a", "b") == "a/b" && Push("a/", "b") == "a/b"
  {
  }

  /** The edges of the ranges of control characters and of encoded lengths. */
  lemma CharacterTables()
    ensures IsControl('\U{1F}') && !IsControl(' ') && !IsControl('~') && IsControl('\U{7F}')
    ensures IsControl('\U{9F}') && !IsControl('\U{A0}')
    ensures Utf8Width('\U{7F}') == 1 && Utf8Width('\U{80}') == 2 && Utf8Width('\U{7FF}') == 2
    ensures Utf8Width('\U{800}') == 3 && Utf8Width('\U{FFFF}') == 3 && Utf8Width('\U{10000}') == 4
  {
  }
}
