/**
 * The parts of Go's `strings` package the core uses: TrimSpace, ToUpper,
 * ToLower, Split (with Join as its inverse), and the UTF-8 encoding Go
 * applies when a string is converted to `[]byte`.
 */
module Strings {
  import opened Integers

  /** unicode.IsSpace: the Latin-1 spaces and the Unicode White_Space characters above Latin-1. */
  predicate IsSpace(c: char) {
    var n := c as int;
    (0x09 <= n <= 0x0D) || n == 0x20 || n == 0x85 || n == 0xA0
    || n == 0x1680 || (0x2000 <= n <= 0x200A) || n == 0x2028 || n == 0x2029
    || n == 0x202F || n == 0x205F || n == 0x3000
  }

  predicate AllSpace(s: string) {
    forall i :: 0 <= i < |s| ==> IsSpace(s[i])
  }

  /** s with its leading white space removed. */
  function TrimLeft(s: string): (r: string)
    ensures |r| <= |s| && r == s[|s| - |r|..]
    ensures AllSpace(s[..|s| - |r|])
    ensures r == [] || !IsSpace(r[0])
  {
    if s != [] && IsSpace(s[0]) then
      var r := TrimLeft(s[1..]);
      assert s[..|s| - |r|] == [s[0]] + s[1..][..|s[1..]| - |r|];
      r
    else s
  }

  /** s with its trailing white space removed. */
  function TrimRight(s: string): (r: string)
    ensures |r| <= |s| && r == s[..|r|]
    ensures AllSpace(s[|r|..])
    ensures r == [] || !IsSpace(r[|r| - 1])
  {
    if s != [] && IsSpace(s[|s| - 1]) then
      var p := s[..|s| - 1];
      var r := TrimRight(p);
      assert s[|r|..] == p[|r|..] + [s[|s| - 1]];
      r
    else s
  }

  /** strings.TrimSpace */
  function TrimSpace(s: string): (r: string)
  {
    TrimRight(TrimLeft(s))
  }

  /** r is s[i..i + |r|] and everything around it is white space. */
  predicate TrimmedAt(s: string, r: string, i: int) {
    0 <= i <= |s| - |r| && s[i..i + |r|] == r && AllSpace(s[..i]) && AllSpace(s[i + |r|..])
  }

  /** TrimSpace removes white space, and only white space, at both ends and keeps the middle. */
  lemma TrimSpaceSpec(s: string)
    ensures exists i :: TrimmedAt(s, TrimSpace(s), i)
    ensures var r := TrimSpace(s); r == [] || (!IsSpace(r[0]) && !IsSpace(r[|r| - 1]))
  {
    var l := TrimLeft(s);
    var r := TrimRight(l);
    assert TrimSpace(s) == r;
    var i := |s| - |l|;
    assert s[i..i + |r|] == r;
    assert s[i + |r|..] == l[|r|..];
    assert TrimmedAt(s, r, i);
    if r != [] {
      assert r[0] == l[0];
    }
  }

  /** Trimming twice trims nothing more. */
  lemma TrimSpaceIdempotent(s: string)
    ensures TrimSpace(TrimSpace(s)) == TrimSpace(s)
  {
    TrimSpaceSpec(s);
    var r := TrimSpace(s);
    if r != [] {
      assert TrimLeft(r) == r;
      assert TrimRight(r) == r;
    }
  }

  function UpperChar(c: char): char {
    if 'a' <= c <= 'z' then (c as int - 32) as char else c
  }

  function LowerChar(c: char): char {
    if 'A' <= c <= 'Z' then (c as int + 32) as char else c
  }

  /** strings.ToUpper, for the ASCII letters. */
  function ToUpper(s: string): (r: string)
    ensures |r| == |s| && forall i :: 0 <= i < |s| ==> r[i] == UpperChar(s[i])
  {
    if s == [] then [] else [UpperChar(s[0])] + ToUpper(s[1..])
  }

  /** strings.ToLower, for the ASCII letters. */
  function ToLower(s: string): (r: string)
    ensures |r| == |s| && forall i :: 0 <= i < |s| ==> r[i] == LowerChar(s[i])
  {
    if s == [] then [] else [LowerChar(s[0])] + ToLower(s[1..])
  }

  /** Upper-casing twice is upper-casing once, and lower-casing forgets it. */
  lemma CaseMappings(s: string)
    ensures ToUpper(ToUpper(s)) == ToUpper(s)
    ensures ToLower(ToUpper(s)) == ToLower(s)
    ensures forall i :: 0 <= i < |s| ==> !('a' <= ToUpper(s)[i] <= 'z')
  {
    var u := ToUpper(s);
    var uu, lu, ls := ToUpper(u), ToLower(u), ToLower(s);
    forall i | 0 <= i < |s|
      ensures uu[i] == u[i] && lu[i] == ls[i] && !('a' <= u[i] <= 'z')
    {
      CharCaseMappings(s[i]);
    }
    assert uu == u;
    assert lu == ls;
  }

  lemma CharCaseMappings(c: char)
    ensures UpperChar(UpperChar(c)) == UpperChar(c)
    ensures LowerChar(UpperChar(c)) == LowerChar(c)
    ensures !('a' <= UpperChar(c) <= 'z')
  {
  }

  /** strings.Split(s, sep): for an empty sep, one piece per character. */
  function Split(s: string, sep: string): (r: seq<string>)
  {
    if sep == [] then Explode(s) else SplitOn(s, sep)
  }

  function Explode(s: string): (r: seq<string>)
    ensures |r| == |s| && forall i :: 0 <= i < |s| ==> r[i] == [s[i]]
  {
    if s == [] then [] else [[s[0]]] + Explode(s[1..])
  }

  /** Cut s at every leftmost, non-overlapping occurrence of a non-empty sep. */
  function SplitOn(s: string, sep: string): (r: seq<string>)
    requires sep != []
    ensures |r| >= 1
    ensures |r[0]| <= |s| && r[0] == s[..|r[0]|]
    decreases |s|
  {
    if |s| < |sep| then [s]
    else if s[..|sep|] == sep then [[]] + SplitOn(s[|sep|..], sep)
    else
      var t := SplitOn(s[1..], sep);
      [[s[0]] + t[0]] + t[1..]
  }

  /** strings.Join */
  function Join(parts: seq<string>, sep: string): string {
    if parts == [] then []
    else if |parts| == 1 then parts[0]
    else parts[0] + sep + Join(parts[1..], sep)
  }

  /** Joining the pieces with the separator rebuilds the original string. */
  lemma {:induction false} JoinSplit(s: string, sep: string)
    ensures Join(Split(s, sep), sep) == s
    decreases |s|
  {
    if sep == [] {
      JoinExplode(s);
    } else if |s| < |sep| {
    } else if s[..|sep|] == sep {
      var rest := s[|sep|..];
      JoinSplit(rest, sep);
      JoinAfterSep(SplitOn(rest, sep), rest, sep);
      assert s == s[..|sep|] + rest;
    } else {
      var rest := s[1..];
      JoinSplit(rest, sep);
      JoinAfterChar(s[0], SplitOn(rest, sep), rest, sep);
      assert s == [s[0]] + rest;
    }
  }

  /** Cutting at a one-character separator: the text before its first occurrence is the first piece. */
  lemma {:induction false} SplitAtChar(a: string, c: char, b: string)
    requires c !in a
    ensures SplitOn(a + [c] + b, [c]) == [a] + SplitOn(b, [c])
    decreases |a|
  {
    var s := a + [c] + b;
    if a == [] {
      assert s[..1] == [c] && s[1..] == b;
    } else {
      assert s[..1][0] == a[0] && a[0] in a;
      assert s[1..] == a[1..] + [c] + b;
      SplitAtChar(a[1..], c, b);
      assert [a[0]] + a[1..] == a;
    }
  }

  /** A text without the one-character separator is a single piece. */
  lemma {:induction false} SplitWithoutChar(s: string, c: char)
    requires c !in s
    ensures SplitOn(s, [c]) == [s]
    decreases |s|
  {
    if s != [] {
      assert s[..1][0] == s[0] && s[0] in s;
      SplitWithoutChar(s[1..], c);
      assert [s[0]] + s[1..] == s;
    }
  }

  /** Every character of a piece of a split is a character of the string that was split. */
  lemma SplitKeepsChars(s: string, sep: string, k: int, i: int)
    requires 0 <= k < |Split(s, sep)| && 0 <= i < |Split(s, sep)[k]|
    ensures Split(s, sep)[k][i] in s
  {
    JoinSplit(s, sep);
    JoinKeepsChars(Split(s, sep), sep, k, i);
  }

  /** Every character of a part is a character of the joined string. */
  lemma {:induction false} JoinKeepsChars(parts: seq<string>, sep: string, k: int, i: int)
    requires 0 <= k < |parts| && 0 <= i < |parts[k]|
    ensures parts[k][i] in Join(parts, sep)
    decreases |parts|
  {
    if |parts| > 1 {
      var rest := Join(parts[1..], sep);
      var joined := parts[0] + sep + rest;
      assert Join(parts, sep) == joined;
      if k == 0 {
        assert joined[i] == parts[0][i];
      } else {
        JoinKeepsChars(parts[1..], sep, k - 1, i);
        assert parts[1..][k - 1] == parts[k];
        var j :| 0 <= j < |rest| && rest[j] == parts[k][i];
        assert joined[|parts[0]| + |sep| + j] == rest[j];
      }
    }
  }

  /** A piece that is empty because the string starts with the separator. */
  lemma JoinAfterSep(u: seq<string>, rest: string, sep: string)
    requires u != [] && Join(u, sep) == rest
    ensures Join([[]] + u, sep) == sep + rest
  {
    var e: string := [];
    JoinCons(e, u, sep);
    assert e + sep == sep;
  }

  /** A character in front of the first piece. */
  lemma JoinAfterChar(c: char, t: seq<string>, rest: string, sep: string)
    requires t != [] && Join(t, sep) == rest
    ensures Join([[c] + t[0]] + t[1..], sep) == [c] + rest
  {
    if |t| == 1 {
      assert [[c] + t[0]] + t[1..] == [[c] + t[0]];
    } else {
      assert t == [t[0]] + t[1..];
      JoinCons(t[0], t[1..], sep);
      JoinCons([c] + t[0], t[1..], sep);
    }
  }

  /** Joining a piece in front of at least one more. */
  lemma JoinCons(a: string, u: seq<string>, sep: string)
    requires u != []
    ensures Join([a] + u, sep) == a + sep + Join(u, sep)
  {
    assert ([a] + u)[1..] == u;
  }

  lemma {:induction false} JoinExplode(s: string)
    ensures Join(Explode(s), []) == s
  {
    var e := Explode(s);
    if |s| > 1 {
      assert e[1..] == Explode(s[1..]);
      assert Join(e, []) == [s[0]] + [] + Join(Explode(s[1..]), []);
      JoinExplode(s[1..]);
      assert s == [s[0]] + [] + s[1..];
    } else if |s| == 1 {
      assert s == e[0];
    }
  }

  /** sep occurs in s at index i. */
  predicate OccursAt(s: string, sep: string, i: int) {
    0 <= i && i + |sep| <= |s| && s[i..i + |sep|] == sep
  }

  /** No piece of a split contains the separator. */
  lemma {:induction false} SplitPiecesFree(s: string, sep: string)
    requires sep != []
    ensures forall k, i :: 0 <= k < |SplitOn(s, sep)| ==> !OccursAt(SplitOn(s, sep)[k], sep, i)
    decreases |s|
  {
    var r := SplitOn(s, sep);
    if |s| < |sep| {
    } else if s[..|sep|] == sep {
      SplitPiecesFree(s[|sep|..], sep);
      assert forall k :: 1 <= k < |r| ==> r[k] == SplitOn(s[|sep|..], sep)[k - 1];
    } else {
      var t := SplitOn(s[1..], sep);
      SplitPiecesFree(s[1..], sep);
      assert forall k :: 1 <= k < |r| ==> r[k] == t[k];
      var p := [s[0]] + t[0];
      assert !OccursAt(p, sep, 0) by {
        if |p| >= |sep| {
          assert p[..|sep|] == s[..|sep|];
        }
      }
      forall i | 1 <= i
        ensures !OccursAt(p, sep, i)
      {
        if i + |sep| <= |p| {
          assert p[i..i + |sep|] == t[0][i - 1..i - 1 + |sep|];
          assert !OccursAt(t[0], sep, i - 1);
        }
      }
    }
  }

  /** Dropping the first character shifts every occurrence one place to the left. */
  lemma OccursShift(c: char, x: string, sep: string, i: int)
    requires i >= 1
    ensures OccursAt([c] + x, sep, i) == OccursAt(x, sep, i - 1)
  {
    if i + |sep| <= |[c] + x| {
      assert ([c] + x)[i..i + |sep|] == x[i - 1..i - 1 + |sep|];
    }
  }

  /** When there is more than one piece, s begins with the first piece followed by sep. */
  lemma {:induction false} SplitFirstCut(s: string, sep: string)
    requires sep != []
    ensures var r := SplitOn(s, sep);
      |r| > 1 ==> |r[0]| + |sep| <= |s| && s[..|r[0]| + |sep|] == r[0] + sep
    decreases |s|
  {
    if |s| < |sep| {
    } else if s[..|sep|] == sep {
    } else {
      var t := SplitOn(s[1..], sep);
      SplitFirstCut(s[1..], sep);
      if |t| > 1 {
        assert s[..1 + |t[0]| + |sep|] == [s[0]] + s[1..][..|t[0]| + |sep|];
      }
    }
  }

  /** No occurrence of sep starts inside the first piece, when a cut follows it. */
  lemma {:induction false} FirstPieceLeftmost(s: string, sep: string)
    requires sep != []
    ensures var r := SplitOn(s, sep);
      |r| > 1 ==> forall i :: 0 <= i < |r[0]| ==> !OccursAt(r[0] + sep, sep, i)
    decreases |s|
  {
    var r := SplitOn(s, sep);
    if |s| < |sep| {
    } else if s[..|sep|] == sep {
    } else if |r| > 1 {
      var t := SplitOn(s[1..], sep);
      FirstPieceLeftmost(s[1..], sep);
      SplitFirstCut(s, sep);
      var p := r[0];
      assert p + sep == [s[0]] + (t[0] + sep);
      forall i | 0 <= i < |p|
        ensures !OccursAt(p + sep, sep, i)
      {
        if i == 0 {
          assert (p + sep)[..|sep|] == s[..|sep|];
        } else {
          OccursShift(s[0], t[0] + sep, sep, i);
        }
      }
    }
  }

  /**
   * The cuts are leftmost: no occurrence of sep starts inside a piece that a
   * cut follows, not even one that runs on into the separator after it.
   */
  predicate LeftmostCuts(r: seq<string>, sep: string) {
    forall k, i :: 0 <= k < |r| - 1 && 0 <= i < |r[k]| ==> !OccursAt(r[k] + sep, sep, i)
  }

  /** strings.Split cuts at the leftmost occurrence each time. */
  lemma {:induction false} SplitLeftmost(s: string, sep: string)
    requires sep != []
    ensures LeftmostCuts(SplitOn(s, sep), sep)
    decreases |s|
  {
    var r := SplitOn(s, sep);
    FirstPieceLeftmost(s, sep);
    if |s| < |sep| {
    } else if s[..|sep|] == sep {
      var t := SplitOn(s[|sep|..], sep);
      SplitLeftmost(s[|sep|..], sep);
      assert r == [[]] + t;
      forall k, i | 1 <= k < |r| - 1 && 0 <= i < |r[k]|
        ensures !OccursAt(r[k] + sep, sep, i)
      {
        assert r[k] == t[k - 1];
      }
    } else {
      var t := SplitOn(s[1..], sep);
      SplitLeftmost(s[1..], sep);
      assert r == [[s[0]] + t[0]] + t[1..];
      forall k, i | 1 <= k < |r| - 1 && 0 <= i < |r[k]|
        ensures !OccursAt(r[k] + sep, sep, i)
      {
        assert r[k] == t[k];
      }
    }
  }

  /** The UTF-8 encoding of one character (what Go's []byte(string) conversion produces). */
  function EncodeChar(c: char): (r: seq<Byte>)
    ensures 1 <= |r| <= 4
    ensures |r| == 1 <==> c as int < 0x80
  {
    var n := c as int;
    if n < 0x80 then [n]
    else if n < 0x800 then [0xC0 + n / 0x40, 0x80 + n % 0x40]
    else if n < 0x1_0000 then [0xE0 + n / 0x1000, 0x80 + (n / 0x40) % 0x40, 0x80 + n % 0x40]
    else [0xF0 + n / 0x4_0000, 0x80 + (n / 0x1000) % 0x40, 0x80 + (n / 0x40) % 0x40, 0x80 + n % 0x40]
  }

  /** []byte(s) */
  function Utf8(s: string): (r: seq<Byte>)
    ensures |r| >= |s|
  {
    if s == [] then [] else EncodeChar(s[0]) + Utf8(s[1..])
  }

  predicate IsAscii(s: string) {
    forall i :: 0 <= i < |s| ==> s[i] as int < 0x80
  }

  /** An ASCII string is its own byte sequence. */
  lemma {:induction false} Utf8Ascii(s: string)
    ensures IsAscii(s) ==> |Utf8(s)| == |s| && forall i :: 0 <= i < |s| ==> Utf8(s)[i] == s[i] as int
  {
    if s != [] && IsAscii(s) {
      Utf8Ascii(s[1..]);
    }
  }

  /** Encoding distributes over concatenation. */
  lemma {:induction false} Utf8Append(a: string, b: string)
    ensures Utf8(a + b) == Utf8(a) + Utf8(b)
  {
    if a != [] {
      assert (a + b)[1..] == a[1..] + b;
      Utf8Append(a[1..], b);
      calc {
        Utf8(a + b);
        EncodeChar(a[0]) + Utf8(a[1..] + b);
        EncodeChar(a[0]) + (Utf8(a[1..]) + Utf8(b));
        (EncodeChar(a[0]) + Utf8(a[1..])) + Utf8(b);
      }
    } else {
      assert a + b == b;
    }
  }
}
