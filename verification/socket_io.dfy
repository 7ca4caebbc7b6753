/**
 * Payload extraction from the simulator's Socket.IO frames (`main.cpp`).
 *
 * A frame is handled only when it starts with the event prefix "42";
 * `hasData` then cuts out the JSON array between the first `[` and the last
 * `}]`, or gives the empty string when the frame carries `null` or lacks a
 * delimiter. The standard-library searches it uses (`find`,
 * `find_first_of`, `rfind`) are modelled by recursive searches proved
 * against their specifications, `npos` by `None`, and `substr` with its
 * clamping of an over-long count. Lengths are `size_t`: the count
 * `b2 - b1 + 2` is computed modulo 2^64.
 */
module SocketIo {

  datatype Option<T> = None | Some(value: T)

  /** The modulus of `size_t` arithmetic. */
  const SizeMod: int := 0x1_0000_0000_0000_0000

  /** `size_t` subtraction: a difference below zero wraps around to the top of the range. */
  lemma SizeWrap(k: int)
    requires -SizeMod < k < SizeMod
    ensures k >= 0 ==> k % SizeMod == k
    ensures k < 0 ==> k % SizeMod == SizeMod + k
  {
  }

  /** `pat` occurs in `s` starting at position `i`. */
  predicate OccursAt(s: string, pat: string, i: nat) {
    i + |pat| <= |s| && s[i..i + |pat|] == pat
  }

  /** `pat` occurs somewhere in `s`. */
  ghost predicate Contains(s: string, pat: string) {
    exists i: nat :: OccursAt(s, pat, i)
  }

  /** `std::string::find`: the first occurrence of `pat` at or after `from`. */
  function FindFrom(s: string, pat: string, from: nat): (r: Option<nat>)
    decreases |s| - from
    ensures r.Some? ==> from <= r.value && OccursAt(s, pat, r.value)
    ensures r.Some? ==> forall j: nat :: from <= j < r.value ==> !OccursAt(s, pat, j)
    ensures r.None? ==> forall j: nat :: from <= j ==> !OccursAt(s, pat, j)
  {
    if from + |pat| > |s| then None
    else if s[from..from + |pat|] == pat then Some(from)
    else FindFrom(s, pat, from + 1)
  }

  /** The first occurrence of `pat` in `s`, or `None` exactly when there is none. */
  function Find(s: string, pat: string): (r: Option<nat>)
    ensures r.Some? ==> OccursAt(s, pat, r.value) && forall j: nat :: j < r.value ==> !OccursAt(s, pat, j)
    ensures r.None? ==> forall j: nat :: !OccursAt(s, pat, j)
  {
    FindFrom(s, pat, 0)
  }

  /** `std::string::find_first_of`: the first position at or after `from` holding one of `chars`. */
  function FindFirstOfFrom(s: string, chars: string, from: nat): (r: Option<nat>)
    decreases |s| - from
    ensures r.Some? ==> from <= r.value < |s| && s[r.value] in chars
    ensures r.Some? ==> forall j :: from <= j < r.value ==> s[j] !in chars
    ensures r.None? ==> forall j :: from <= j < |s| ==> s[j] !in chars
  {
    if from >= |s| then None
    else if s[from] in chars then Some(from)
    else FindFirstOfFrom(s, chars, from + 1)
  }

  /** The first position of `s` holding one of `chars`, or `None` exactly when there is none. */
  function FindFirstOf(s: string, chars: string): (r: Option<nat>)
    ensures r.Some? ==> r.value < |s| && s[r.value] in chars
    ensures r.Some? ==> forall j :: 0 <= j < r.value ==> s[j] !in chars
    ensures r.None? ==> forall j :: 0 <= j < |s| ==> s[j] !in chars
  {
    FindFirstOfFrom(s, chars, 0)
  }

  /** `std::string::rfind`: the last occurrence of `pat` starting before `end`. */
  function RFindBelow(s: string, pat: string, end: nat): (r: Option<nat>)
    ensures r.Some? ==> r.value < end && OccursAt(s, pat, r.value)
    ensures r.Some? ==> forall j: nat :: r.value < j < end ==> !OccursAt(s, pat, j)
    ensures r.None? ==> forall j: nat :: j < end ==> !OccursAt(s, pat, j)
  {
    if end == 0 then None
    else if OccursAt(s, pat, end - 1) then Some(end - 1)
    else RFindBelow(s, pat, end - 1)
  }

  /**
   * `rfind` with the default start `npos`: the last occurrence of `pat`
   * anywhere in `s`, or `None` exactly when there is none.
   */
  function RFind(s: string, pat: string): (r: Option<nat>)
    ensures r.Some? ==> OccursAt(s, pat, r.value) && forall j: nat :: r.value < j ==> !OccursAt(s, pat, j)
    ensures r.None? ==> forall j: nat :: !OccursAt(s, pat, j)
  {
    RFindBelow(s, pat, |s| + 1)
  }

  /**
   * `std::string::substr`: the characters of `s` from `pos` on, `count` of
   * them when that many remain, otherwise all that remain (an over-long
   * count is clamped, never an error).
   */
  function Substr(s: string, pos: nat, count: nat): (r: string)
    requires pos <= |s|
    ensures |r| == if count <= |s| - pos then count else |s| - pos
    ensures r == s[pos..pos + |r|]
  {
    if count <= |s| - pos then s[pos..pos + count] else s[pos..]
  }

  /**
   * `hasData`: the JSON text of a frame, or "" when it has none. The result
   * is a piece of the frame, never longer than it, and when non-empty it
   * starts with the first `[`.
   */
  function HasData(s: string): (r: string)
    ensures |r| <= |s|
    ensures Contains(s, r)
    ensures r != [] ==> r[0] == '['
  {
    var foundNull := Find(s, "null");
    var b1 := FindFirstOf(s, "[");
    var b2 := RFind(s, "}]");
    if foundNull.Some? then
      assert OccursAt(s, [], 0);
      []
    else if b1.Some? && b2.Some? then
      var r := Substr(s, b1.value, (b2.value - b1.value + 2) % SizeMod);
      assert OccursAt(s, r, b1.value);
      r
    else
      assert OccursAt(s, [], 0);
      []
  }

  /** A frame containing "null" anywhere carries no data, whatever its brackets. */
  lemma NullMeansNoData(s: string, i: nat)
    requires OccursAt(s, "null", i)
    ensures HasData(s) == []
  {
  }

  /** Without "null", a frame lacking a `[` or a `}]` carries no data either. */
  lemma MissingDelimiterMeansNoData(s: string)
    requires forall i: nat :: !OccursAt(s, "null", i)
    requires (forall i :: 0 <= i < |s| ==> s[i] != '[') || (forall i: nat :: !OccursAt(s, "}]", i))
    ensures HasData(s) == []
  {
    var b1 := FindFirstOf(s, "[");
    var b2 := RFind(s, "}]");
    if b1.Some? {
      assert s[b1.value] == '[';
    }
    if b2.Some? {
      assert OccursAt(s, "}]", b2.value);
    }
  }

  /** `b1` is the first `[` of `s`. */
  predicate FirstOpen(s: string, b1: nat) {
    b1 < |s| && s[b1] == '[' && forall j :: 0 <= j < b1 ==> s[j] != '['
  }

  /** `b2` is the start of the last `}]` of `s`. */
  ghost predicate LastClose(s: string, b2: nat) {
    OccursAt(s, "}]", b2) && forall j: nat :: b2 < j ==> !OccursAt(s, "}]", j)
  }

  /** The searches find exactly the first `[` and the last `}]`. */
  lemma DelimitersFound(s: string, b1: nat, b2: nat)
    requires FirstOpen(s, b1) && LastClose(s, b2)
    ensures FindFirstOf(s, "[") == Some(b1)
    ensures RFind(s, "}]") == Some(b2)
  {
    assert s[b1] in "[";
    var g := RFind(s, "}]");
    assert b2 < |s| + 1;
    assert g.Some?;
    if g.value != b2 {
      assert false;
    }
  }

  /**
   * When the first `[` comes no later than the last `}]`, the data is
   * exactly the text from that `[` through that `}]`: it starts with `[`
   * and ends with `}]`.
   */
  lemma DataBetweenBrackets(s: string, b1: nat, b2: nat)
    requires |s| < SizeMod
    requires forall i: nat :: !OccursAt(s, "null", i)
    requires FirstOpen(s, b1) && LastClose(s, b2) && b1 <= b2
    ensures HasData(s) == s[b1..b2 + 2]
    ensures HasData(s)[0] == '[' && HasData(s)[|HasData(s)| - 2..] == "}]"
  {
    DelimitersFound(s, b1, b2);
    assert Find(s, "null").None?;
    SizeWrap(b2 - b1 + 2);
    var count := (b2 - b1 + 2) % SizeMod;
    var r := HasData(s);
    assert r == Substr(s, b1, count);
    assert count <= |s| - b1;
    assert r == s[b1..b2 + 2];
    var c := b2 - b1;
    SliceOfSlice(s, b1, b2 + 2, c, c + 2);
    assert r[|r| - 2..] == r[c..c + 2] == s[b2..b2 + 2];
  }

  /**
   * When the last `}]` starts before the first `[`, the count
   * `b2 - b1 + 2` wraps around and `substr` clamps it: the data is the
   * rest of the frame from the `[`, which is empty exactly when the `[`
   * follows the `}]` immediately. (The `[` cannot sit inside the `}]`.)
   */
  lemma WrappedCount(s: string, b1: nat, b2: nat)
    requires |s| < SizeMod
    requires forall i: nat :: !OccursAt(s, "null", i)
    requires FirstOpen(s, b1) && LastClose(s, b2) && b2 < b1
    ensures b1 != b2 + 1
    ensures b1 == b2 + 2 ==> HasData(s) == []
    ensures b1 != b2 + 2 ==> HasData(s) == s[b1..] && HasData(s) != []
  {
    DelimitersFound(s, b1, b2);
    assert Find(s, "null").None?;
    assert s[b2 + 1] == ']';
    SizeWrap(b2 - b1 + 2);
    var count := (b2 - b1 + 2) % SizeMod;
    assert HasData(s) == Substr(s, b1, count);
  }

  /** A piece of a piece is a piece of the whole. */
  lemma SliceOfSlice(s: string, lo: nat, hi: nat, i: nat, j: nat)
    requires lo <= hi <= |s| && i <= j <= hi - lo
    ensures s[lo..hi][i..j] == s[lo + i..lo + j]
  {
    assert forall k :: 0 <= k < j - i ==> s[lo..hi][i..j][k] == s[lo + i..lo + j][k];
  }

  /** A piece of a text without "null" has no "null" either. */
  lemma NoNullInSlice(s: string, lo: nat, hi: nat)
    requires lo <= hi <= |s|
    requires forall i: nat :: !OccursAt(s, "null", i)
    ensures forall i: nat :: !OccursAt(s[lo..hi], "null", i)
  {
    forall i: nat
      ensures !OccursAt(s[lo..hi], "null", i)
    {
      if i + 4 <= hi - lo {
        SliceOfSlice(s, lo, hi, i, i + 4);
        assert !OccursAt(s, "null", lo + i);
      }
    }
  }

  /**
   * Extraction is idempotent when the brackets are in order: the data
   * carries no "null", its first `[` is its first character, and its last
   * `}]` is its end, so extracting again returns it unchanged.
   */
  lemma {:induction false} HasDataIdempotent(s: string, b1: nat, b2: nat)
    requires |s| < SizeMod
    requires forall i: nat :: !OccursAt(s, "null", i)
    requires FirstOpen(s, b1) && LastClose(s, b2) && b1 <= b2
    ensures HasData(HasData(s)) == HasData(s)
  {
    DataBetweenBrackets(s, b1, b2);
    var r := s[b1..b2 + 2];
    NoNullInSlice(s, b1, b2 + 2);
    var c := b2 - b1;
    assert OccursAt(r, "}]", c) by {
      SliceOfSlice(s, b1, b2 + 2, c, c + 2);
    }
    assert FirstOpen(r, 0);
    assert LastClose(r, c);
    DataBetweenBrackets(r, 0, c);
    assert r[0..c + 2] == r;
  }

  /**
   * The telemetry handler's gate: a frame is passed to `hasData` only when
   * it is longer than two characters and starts with "42"; any other frame
   * is ignored (`None`).
   */
  function EventPayload(sdata: string): (r: Option<string>)
    ensures r.Some? ==> |sdata| > 2 && sdata[..2] == "42"
  {
    if |sdata| > 2 && sdata[0] == '4' && sdata[1] == '2' then Some(HasData(sdata)) else None
  }

  /**
   * Exactly the event frames are handled, and the data of a handled frame
   * never includes its "42" prefix: it lies wholly after it.
   */
  lemma EventPayloadAfterPrefix(sdata: string)
    ensures EventPayload(sdata).Some? <==> |sdata| > 2 && sdata[0] == '4' && sdata[1] == '2'
    ensures EventPayload(sdata).Some? && EventPayload(sdata).value != [] ==>
      FindFirstOf(sdata, "[").Some? && FindFirstOf(sdata, "[").value >= 2 &&
      OccursAt(sdata, EventPayload(sdata).value, FindFirstOf(sdata, "[").value)
  {
    var f := FindFirstOf(sdata, "[");
    if EventPayload(sdata).Some? && EventPayload(sdata).value != [] {
      assert Find(sdata, "null").None? && f.Some?;
      assert sdata[0] !in "[" && sdata[1] !in "[";
    }
  }
}
