/**
 * model.ConfigMap: a string-to-string map with typed "value or default"
 * getters. Every getter returns its default when the key is absent; a present
 * key whose text does not parse also yields the default, except where noted.
 * The ten integer getters (Int, Uint, Int8 ... Uint64) and the ten integer
 * list getters (IntList ... Uint64List) differ only in the Go type they
 * return, so each family is one member here, parameterised by that type.
 */
module ConfigMaps {
  import opened Wrappers
  import opened Integers
  import Strconv
  import Strings

  type ConfigMap = map<string, string>

  /** ConfigMap.String: the stored text whenever the key is present, even if it is empty. */
  function String(c: ConfigMap, key: string, default: string): (r: string)
    ensures key in c ==> r == c[key]
    ensures key !in c ==> r == default
  {
    if key in c then c[key] else default
  }

  /** ConfigMap.StringList: the stored text cut at every `sep`. */
  function StringList(c: ConfigMap, key: string, sep: string, default: seq<string>): (r: seq<string>)
    ensures key !in c ==> r == default
    ensures key in c ==> Strings.Join(r, sep) == c[key]
    ensures key in c && sep != [] ==> |r| >= 1
    ensures key in c && sep != [] ==> forall k, i :: 0 <= k < |r| ==> !Strings.OccursAt(r[k], sep, i)
    ensures key in c && sep != [] ==> Strings.LeftmostCuts(r, sep)
    ensures key in c && sep == [] ==> |r| == |c[key]| && forall i :: 0 <= i < |r| ==> r[i] == [c[key][i]]
  {
    if key in c then
      Strings.JoinSplit(c[key], sep);
      SplitPieces(c[key], sep);
      Strings.Split(c[key], sep)
    else default
  }

  /**
   * A separator that overlaps itself is cut where it first occurs: "aaa"
   * split at "aa" is "" and "a"; the later cut "a" and "" is not leftmost.
   */
  lemma OverlappingSeparator(c: ConfigMap, key: string)
    requires key in c && c[key] == "aaa"
    ensures StringList(c, key, "aa", []) == ["", "a"]
    ensures !Strings.LeftmostCuts(["a", ""], "aa")
  {
    assert Strings.OccursAt(["a", ""][0] + "aa", "aa", 0);
    assert "aaa"[..2] == "aa" && "aaa"[2..] == "a";
    assert Strings.SplitOn("a", "aa") == ["a"];
  }

  /**
   * The pieces of a split: free of a non-empty separator and cut at its
   * leftmost occurrences, single characters for an empty one.
   */
  lemma SplitPieces(s: string, sep: string)
    ensures var r := Strings.Split(s, sep);
      && (sep != [] ==> forall k, i :: 0 <= k < |r| ==> !Strings.OccursAt(r[k], sep, i))
      && (sep != [] ==> Strings.LeftmostCuts(r, sep))
      && (sep == [] ==> |r| == |s| && forall i :: 0 <= i < |r| ==> r[i] == [s[i]])
  {
    if sep != [] {
      Strings.SplitPiecesFree(s, sep);
      Strings.SplitLeftmost(s, sep);
    }
  }

  /** ConfigMap.Bytes: the stored text as UTF-8 bytes. */
  function Bytes(c: ConfigMap, key: string, default: seq<Byte>): (r: seq<Byte>)
    ensures key !in c ==> r == default
    ensures key in c && Strings.IsAscii(c[key]) ==> |r| == |c[key]| && forall i :: 0 <= i < |r| ==> r[i] == c[key][i] as int
  {
    if key in c then
      Strings.Utf8Ascii(c[key]);
      Strings.Utf8(c[key])
    else default
  }

  /** ConfigMap.Bool: strconv.ParseBool of the stored text. */
  function Bool(c: ConfigMap, key: string, default: bool): (r: bool)
    ensures key in c && c[key] in ["1", "t", "T", "TRUE", "true", "True"] ==> r
    ensures key in c && c[key] in ["0", "f", "F", "FALSE", "false", "False"] ==> !r
    ensures key !in c || Strconv.ParseBool(c[key]).None? ==> r == default
  {
    if key in c then Strconv.ParseBool(c[key]).GetOr(default) else default
  }

  /**
   * How the scalar getter for type k reads text: Int uses Atoi; Uint uses
   * ParseUint with a 32-bit range although `uint` is 64 bits wide; the sized
   * types use ParseInt/ParseUint with their own width.
   */
  function ParseScalar(k: IntKind, s: string): (r: Option<int>)
    ensures r.Some? ==> k.Holds(r.value)
    ensures k == Uint && r.Some? ==> r.value < 0x1_0000_0000
  {
    match k
    case Int => Strconv.Atoi(s)
    case Uint => Strconv.ParseUint(s, W32)
    case Int8 => Strconv.ParseInt(s, W8)
    case Int16 => Strconv.ParseInt(s, W16)
    case Int32 => Strconv.ParseInt(s, W32)
    case Int64 => Strconv.ParseInt(s, W64)
    case Uint8 => Strconv.ParseUint(s, W8)
    case Uint16 => Strconv.ParseUint(s, W16)
    case Uint32 => Strconv.ParseUint(s, W32)
    case Uint64 => Strconv.ParseUint(s, W64)
  }

  /** ConfigMap.Int, Uint, Int8 ... Uint64: the parsed value, or the default when absent or unparsable. */
  function Integer(c: ConfigMap, key: string, k: IntKind, default: int): (r: int)
    requires k.Holds(default)
    ensures k.Holds(r)
    ensures key !in c ==> r == default
    ensures key in c && ParseScalar(k, c[key]).None? ==> r == default
    ensures key in c && ParseScalar(k, c[key]).Some? ==> r == ParseScalar(k, c[key]).value
  {
    if key in c then ParseScalar(k, c[key]).GetOr(default) else default
  }

  /**
   * How the list getter for type k reads one element: Int64List and
   * Uint64List parse with a range check; every other list getter parses with
   * Atoi and then converts, so out-of-range elements wrap around.
   */
  function ParseElement(k: IntKind, s: string): (r: Option<int>)
    ensures r.Some? ==> k.Holds(r.value)
  {
    match k
    case Int64 => Strconv.ParseInt(s, W64)
    case Uint64 => Strconv.ParseUint(s, W64)
    case _ =>
      match Strconv.Atoi(s)
      case Some(i) => Some(Convert(i, k))
      case None => None
  }

  /**
   * A list element of a type narrower than 64 bits is read as an `int` and
   * then converted, so one out of the type's range wraps where the scalar
   * getter refuses it: text reading 1000 is -24 (1000 - 4 * 256) in an
   * Int8List, while the Int8 getter falls back to its default.
   */
  lemma ListElementsWrap(k: IntKind, s: string, i: int)
    requires k != Int64 && k != Uint64 && Strconv.Atoi(s) == Some(i)
    ensures ParseElement(k, s) == Some(Convert(i, k))
    ensures !k.Holds(i) ==> ParseScalar(k, s).None?
    ensures Convert(1000, Int8) == -24
  {
  }

  /** The elements in order, or None if any of them is missing. */
  function Collect(parsed: seq<Option<int>>): (r: Option<seq<int>>)
  {
    if parsed == [] then Some([])
    else
      match Collect(parsed[..|parsed| - 1])
      case None => None
      case Some(xs) =>
        match parsed[|parsed| - 1]
        case None => None
        case Some(x) => Some(xs + [x])
  }

  /** All or nothing: Collect succeeds exactly when every element is present, and then keeps length and order. */
  lemma {:induction false} CollectSpec(parsed: seq<Option<int>>)
    ensures Collect(parsed).Some? <==> forall i :: 0 <= i < |parsed| ==> parsed[i].Some?
    ensures Collect(parsed).Some? ==>
      |Collect(parsed).value| == |parsed|
      && forall i :: 0 <= i < |parsed| ==> Collect(parsed).value[i] == parsed[i].value
  {
    if parsed != [] {
      var n := |parsed|;
      CollectSpec(parsed[..n - 1]);
      assert forall i :: 0 <= i < n - 1 ==> parsed[..n - 1][i] == parsed[i];
    }
  }

  /** Each piece read as an element of type k. */
  function ParseEach(k: IntKind, pieces: seq<string>): (r: seq<Option<int>>)
    ensures |r| == |pieces| && forall i :: 0 <= i < |pieces| ==> r[i] == ParseElement(k, pieces[i])
  {
    seq(|pieces|, i requires 0 <= i < |pieces| => ParseElement(k, pieces[i]))
  }

  /**
   * What a list getter returns for stored text that splits into `pieces`:
   * all elements, of type k, in order, or None if any piece fails to parse.
   */
  lemma ParseListSpec(k: IntKind, pieces: seq<string>)
    ensures var r := Collect(ParseEach(k, pieces));
      && (r.Some? <==> forall i :: 0 <= i < |pieces| ==> ParseElement(k, pieces[i]).Some?)
      && (r.Some? ==> |r.value| == |pieces|)
      && (r.Some? ==> forall i :: 0 <= i < |pieces| ==> r.value[i] == ParseElement(k, pieces[i]).value)
      && (r.Some? ==> forall x :: x in r.value ==> k.Holds(x))
  {
    CollectSpec(ParseEach(k, pieces));
  }

  /** ConfigMap.IntList ... Uint64List: every piece parsed, or the whole default if any piece fails. */
  method IntegerList(c: ConfigMap, key: string, sep: string, k: IntKind, default: seq<int>) returns (r: seq<int>)
    ensures key !in c ==> r == default
    ensures key in c ==> r == Collect(ParseEach(k, Strings.Split(c[key], sep))).GetOr(default)
  {
    if key !in c {
      return default;
    }
    var parsed := ParseEach(k, Strings.Split(c[key], sep));
    var all := CollectAll(parsed);
    return all.GetOr(default);
  }

  /** The loop over the pieces: stops at the first one that does not parse. */
  method CollectAll(parsed: seq<Option<int>>) returns (r: Option<seq<int>>)
    ensures r == Collect(parsed)
  {
    var result := [];
    for i := 0 to |parsed|
      invariant Collect(parsed[..i]) == Some(result)
    {
      assert parsed[..i + 1][..i] == parsed[..i];
      if parsed[i].None? {
        CollectPrefixFailure(parsed, i + 1);
        return None;
      }
      result := result + [parsed[i].value];
    }
    assert parsed[..|parsed|] == parsed;
    return Some(result);
  }

  /** Once a prefix has a missing element, the whole sequence does. */
  lemma {:induction false} CollectPrefixFailure(parsed: seq<Option<int>>, i: nat)
    requires i <= |parsed| && Collect(parsed[..i]).None?
    ensures Collect(parsed).None?
    decreases |parsed| - i
  {
    if i < |parsed| {
      assert parsed[..i + 1][..i] == parsed[..i];
      CollectPrefixFailure(parsed, i + 1);
    } else {
      assert parsed[..i] == parsed;
    }
  }

  /** One piece of a StringMap value: a trimmed (key, value) when it holds exactly one '='. */
  function ParsePair(piece: string): Option<(string, string)> {
    var sd := Strings.Split(piece, "=");
    if |sd| == 2 then Some((Strings.TrimSpace(sd[0]), Strings.TrimSpace(sd[1]))) else None
  }

  function ParsePairs(pieces: seq<string>): (r: seq<Option<(string, string)>>)
    ensures |r| == |pieces| && forall i :: 0 <= i < |pieces| ==> r[i] == ParsePair(pieces[i])
  {
    seq(|pieces|, i requires 0 <= i < |pieces| => ParsePair(pieces[i]))
  }

  /** The map built by assigning the pairs left to right. */
  function Assign(entries: seq<Option<(string, string)>>): ConfigMap {
    if entries == [] then map[]
    else
      var m := Assign(entries[..|entries| - 1]);
      match entries[|entries| - 1]
      case Some((k, v)) => m[k := v]
      case None => m
  }

  /** One more entry: a pair overwrites its key, a skipped piece changes nothing. */
  lemma AssignStep(entries: seq<Option<(string, string)>>, i: nat)
    requires i < |entries|
    ensures Assign(entries[..i + 1]) ==
      if entries[i].Some? then Assign(entries[..i])[entries[i].value.0 := entries[i].value.1] else Assign(entries[..i])
  {
    assert entries[..i + 1][..i] == entries[..i];
  }

  /** ConfigMap.StringMap: `k=v;k=v` pairs, trimmed; pieces that are not pairs are skipped. */
  method StringMap(c: ConfigMap, key: string, default: ConfigMap) returns (r: ConfigMap)
    ensures key !in c ==> r == default
    ensures key in c ==> r == Assign(ParsePairs(Strings.Split(c[key], ";")))
  {
    if key !in c {
      return default;
    }
    var data := map[];
    var pieces := Strings.Split(c[key], ";");
    ghost var entries := ParsePairs(pieces);
    for i := 0 to |pieces|
      invariant data == Assign(entries[..i])
    {
      AssignStep(entries, i);
      var sd := Strings.Split(pieces[i], "=");
      if |sd| == 2 {
        data := data[Strings.TrimSpace(sd[0]) := Strings.TrimSpace(sd[1])];
      }
    }
    assert entries[..|pieces|] == entries;
    return data;
  }

  predicate HasKey(e: Option<(string, string)>, k: string) {
    e.Some? && e.value.0 == k
  }

  /** The index of the last pair with key k, or -1 when there is none. */
  function LastWith(entries: seq<Option<(string, string)>>, k: string): (j: int)
    ensures -1 <= j < |entries|
  {
    if entries == [] then -1
    else if HasKey(entries[|entries| - 1], k) then |entries| - 1
    else LastWith(entries[..|entries| - 1], k)
  }

  /**
   * A key is in the StringMap result exactly when some piece is a pair with
   * that key, and it then maps to the value of the LAST such pair.
   */
  lemma {:induction false} AssignLastWins(entries: seq<Option<(string, string)>>, k: string)
    ensures var j := LastWith(entries, k);
      j >= 0 ==> (HasKey(entries[j], k) && forall i :: j < i < |entries| ==> !HasKey(entries[i], k))
    ensures (exists i :: 0 <= i < |entries| && HasKey(entries[i], k)) ==> LastWith(entries, k) >= 0
    ensures k in Assign(entries) <==> LastWith(entries, k) >= 0
    ensures k in Assign(entries) ==> Assign(entries)[k] == entries[LastWith(entries, k)].value.1
  {
    if entries != [] {
      var n := |entries|;
      var init := entries[..n - 1];
      AssignLastWins(init, k);
      assert forall i :: 0 <= i < n - 1 ==> init[i] == entries[i];
    }
  }

  /** A present key whose text holds no `k=v` pair gives the empty map, never the default. */
  lemma NoPairsGiveEmptyMap(entries: seq<Option<(string, string)>>)
    requires forall i :: 0 <= i < |entries| ==> entries[i].None?
    ensures Assign(entries) == map[]
  {
    forall k | k in Assign(entries)
      ensures false
    {
      AssignLastWins(entries, k);
    }
  }
}
