/**
 * `extract_json_from_text` (backend/app/utils.py): find the first `{`, then
 * walk forward keeping a brace depth that never drops below zero; every `}`
 * that brings the depth to zero ends a candidate, and the first candidate
 * that the JSON parser accepts is the answer.
 *
 * The JSON parser (`json.loads`) is a parameter `parse`: `Some(v)` when the
 * candidate parses to `v`, `None` when it raises a decode error.
 */
module JsonExtract {
  import opened Wrappers

  // ---------------------------------------------------------------------
  // The scan as written

  /** `text.find("{")`, with `None` standing for -1. */
  function FindOpen(text: string): (r: Option<nat>)
    ensures r.None? <==> '{' !in text
    ensures r.Some? ==> r.value < |text| && text[r.value] == '{'
    ensures r.Some? ==> forall k :: 0 <= k < r.value ==> text[k] != '{'
  {
    FindOpenFrom(text, 0)
  }

  function FindOpenFrom(text: string, i: nat): (r: Option<nat>)
    requires i <= |text|
    requires forall k :: 0 <= k < i ==> text[k] != '{'
    ensures r.None? <==> '{' !in text
    ensures r.Some? ==> i <= r.value < |text| && text[r.value] == '{'
    ensures r.Some? ==> forall k :: 0 <= k < r.value ==> text[k] != '{'
    decreases |text| - i
  {
    if i == |text| then None
    else if text[i] == '{' then Some(i)
    else FindOpenFrom(text, i + 1)
  }

  /**
   * One step of the brace stack: `{` pushes, `}` pops only when the stack is
   * non-empty, anything else leaves it alone. The stack holds nothing but
   * `{`, so its height is all that matters.
   */
  function Step(depth: nat, c: char): (d: nat)
    ensures c == '{' ==> d == depth + 1
    ensures c == '}' && depth > 0 ==> d + 1 == depth
    ensures c == '}' && depth == 0 ==> d == 0
    ensures c != '{' && c != '}' ==> d == depth
  {
    if c == '{' then depth + 1
    else if c == '}' then (if depth > 0 then depth - 1 else 0)
    else depth
  }

  /**
   * The loop from index `i` on, with `depth` the stack height so far and
   * `start` the index of the first `{`.
   */
  function Scan<J>(text: string, start: nat, i: nat, depth: nat, parse: string -> Option<J>): (r: Option<J>)
    requires start <= i <= |text|
    requires depth == Depth(text[start..i])
    ensures r.Some? <==> exists j :: i <= j < |text| && Accepts(text, start, j, parse)
    ensures r.Some? ==> exists j :: i <= j < |text| && FirstAccepted(text, start, i, j, parse) && r == parse(text[start..j + 1])
    decreases |text| - i
  {
    if i == |text| then None
    else
      var d := Step(depth, text[i]);
      DepthExtend(text, start, i);
      if text[i] == '}' && d == 0 then
        match parse(text[start..i + 1])
        case Some(v) =>
          assert FirstAccepted(text, start, i, i, parse);
          Some(v)
        case None =>
          assert !Accepts(text, start, i, parse);
          var r := Scan(text, start, i + 1, d, parse);
          ScanSkips(text, start, i, i + 1, parse, r);
          r
      else
        assert !Accepts(text, start, i, parse);
        var r := Scan(text, start, i + 1, d, parse);
        ScanSkips(text, start, i, i + 1, parse, r);
        r
  }

  /** `extract_json_from_text(text)`. */
  function ExtractJson<J>(text: string, parse: string -> Option<J>): (r: Option<J>)
    ensures FindOpen(text).None? ==> r.None?
    ensures FindOpen(text).Some? ==>
      var start := FindOpen(text).value;
      (r.Some? <==> exists j :: start <= j < |text| && Accepts(text, start, j, parse))
    ensures FindOpen(text).Some? && r.Some? ==>
      var start := FindOpen(text).value;
      exists j :: start <= j < |text| && FirstAccepted(text, start, start, j, parse) && r == parse(text[start..j + 1])
  {
    match FindOpen(text)
    case None => None
    case Some(start) => Scan(text, start, start, 0, parse)
  }

  // ---------------------------------------------------------------------
  // An extractor that restarts at every `{`

  /** No candidate from `b` on is accepted. */
  ghost predicate NoAcceptFrom<J>(text: string, b: nat, parse: string -> Option<J>) {
    forall j :: b <= j < |text| ==> !Accepts(text, b, j, parse)
  }

  /** `b` is the first `{` at or after `s` from which some candidate is accepted. */
  ghost predicate FirstStart<J>(text: string, s: nat, b: nat, parse: string -> Option<J>) {
    s <= b < |text| && text[b] == '{' && !NoAcceptFrom(text, b, parse) &&
    forall b' :: s <= b' < b && text[b'] == '{' ==> NoAcceptFrom(text, b', parse)
  }

  /** The scan of `ExtractJson`, run from each `{` at or after `s` in turn until one finds something. */
  function TryStarts<J>(text: string, s: nat, parse: string -> Option<J>): (r: Option<J>)
    requires s <= |text|
    ensures r.Some? <==> exists b, j :: s <= b <= j < |text| && text[b] == '{' && Accepts(text, b, j, parse)
    ensures r.Some? ==> exists b: nat, j :: FirstStart(text, s, b, parse) && FirstAccepted(text, b, b, j, parse) && r == parse(text[b..j + 1])
    decreases |text| - s
  {
    if s == |text| then None
    else
      var here := if text[s] == '{' then Scan(text, s, s, 0, parse) else None;
      if here.Some? then
        assert FirstStart(text, s, s, parse);
        here
      else
        var r := TryStarts(text, s + 1, parse);
        StartsSkip(text, s, s + 1, parse, r);
        r
  }

  /** Moving the first start back over `{`s that accept nothing keeps the contract of `TryStarts`. */
  lemma StartsSkip<J>(text: string, s: nat, s2: nat, parse: string -> Option<J>, r: Option<J>)
    requires s <= s2 <= |text|
    requires forall b :: s <= b < s2 && text[b] == '{' ==> NoAcceptFrom(text, b, parse)
    requires r.Some? <==> exists b, j :: s2 <= b <= j < |text| && text[b] == '{' && Accepts(text, b, j, parse)
    requires r.Some? ==> exists b: nat, j :: FirstStart(text, s2, b, parse) && FirstAccepted(text, b, b, j, parse) && r == parse(text[b..j + 1])
    ensures r.Some? <==> exists b, j :: s <= b <= j < |text| && text[b] == '{' && Accepts(text, b, j, parse)
    ensures r.Some? ==> exists b: nat, j :: FirstStart(text, s, b, parse) && FirstAccepted(text, b, b, j, parse) && r == parse(text[b..j + 1])
  {
    if r.Some? {
      var b: nat, j :| FirstStart(text, s2, b, parse) && FirstAccepted(text, b, b, j, parse) && r == parse(text[b..j + 1]);
      assert FirstStart(text, s, b, parse);
    }
  }

  /**
   * The first valid JSON object of the text: the first candidate accepted
   * from the earliest `{` from which any candidate is accepted.
   */
  function ExtractFirstValid<J>(text: string, parse: string -> Option<J>): (r: Option<J>)
    ensures r.Some? <==> exists b, j :: 0 <= b <= j < |text| && text[b] == '{' && Accepts(text, b, j, parse)
    ensures r.Some? ==> exists b: nat, j :: FirstStart(text, 0, b, parse) && FirstAccepted(text, b, b, j, parse) && r == parse(text[b..j + 1])
  {
    match FindOpen(text)
    case None => None
    case Some(start) =>
      var r := TryStarts(text, start, parse);
      StartsSkip(text, 0, start, parse, r);
      r
  }

  /** Whenever the extractor as written finds an object, the restarting one finds the same. */
  lemma FirstValidExtendsExtract<J>(text: string, parse: string -> Option<J>)
    requires ExtractJson(text, parse).Some?
    ensures ExtractFirstValid(text, parse) == ExtractJson(text, parse)
  {
  }

  /** A parser that accepts only the text `{"a":1}`. */
  function OnlyObject(candidate: string): Option<int> {
    if candidate == "{\"a\":1}" then Some(1) else None
  }

  /** The text `{ {"a":1}`: a stray `{`, a space, then the object. */
  const StrayBraceText: string := "{ {\"a\":1}"

  /** No candidate from the stray `{` at index 0 is ever tried: the stack never empties. */
  lemma StrayBraceNeverBalances()
    ensures forall j :: 0 <= j < |StrayBraceText| ==> !Tried(StrayBraceText, 0, j)
  {
    var t := StrayBraceText;
    // The depth after each prefix: 1, 1, 2, 2, 2, 2, 2, 2, 1.
    assert t[0..0] == [];
    assert t[0..1][..0] == t[0..0] && Depth(t[0..1]) == 1;
    assert t[0..2][..1] == t[0..1] && Depth(t[0..2]) == 1;
    assert t[0..3][..2] == t[0..2] && Depth(t[0..3]) == 2;
    assert t[0..4][..3] == t[0..3] && Depth(t[0..4]) == 2;
    assert t[0..5][..4] == t[0..4] && Depth(t[0..5]) == 2;
    assert t[0..6][..5] == t[0..5] && Depth(t[0..6]) == 2;
    assert t[0..7][..6] == t[0..6] && Depth(t[0..7]) == 2;
    assert t[0..8][..7] == t[0..7] && Depth(t[0..8]) == 2;
    assert t[0..9][..8] == t[0..8] && Depth(t[0..9]) == 1;
  }

  /** From index 2 the object itself is the first candidate, and it is accepted. */
  lemma ObjectAfterStrayBraceAccepted()
    ensures Accepts(StrayBraceText, 2, 8, OnlyObject)
  {
    var o := StrayBraceText[2..9];
    assert o == "{\"a\":1}" && o[..0] == [];
    assert o[..1][..0] == o[..0] && Depth(o[..1]) == 1;
    assert o[..2][..1] == o[..1] && Depth(o[..2]) == 1;
    assert o[..3][..2] == o[..2] && Depth(o[..3]) == 1;
    assert o[..4][..3] == o[..3] && Depth(o[..4]) == 1;
    assert o[..5][..4] == o[..4] && Depth(o[..5]) == 1;
    assert o[..6][..5] == o[..5] && Depth(o[..6]) == 1;
    assert o[..7][..6] == o[..6] && Depth(o[..7]) == 0;
    assert o[..7] == o;
  }

  /**
   * A stray `{` before the object hides it from the extractor as written:
   * every candidate starts at index 0 and none is balanced, while the
   * restarting extractor finds the object `text[2..9]`.
   */
  lemma StrayBraceHidesObject()
    ensures ExtractJson(StrayBraceText, OnlyObject) == None
    ensures ExtractFirstValid(StrayBraceText, OnlyObject) == Some(1)
  {
    assert FindOpen(StrayBraceText) == Some(0);
    StrayBraceNeverBalances();
    ObjectAfterStrayBraceAccepted();
    var r := ExtractFirstValid(StrayBraceText, OnlyObject);
    var b: nat, j :| FirstStart(StrayBraceText, 0, b, OnlyObject) && FirstAccepted(StrayBraceText, b, b, j, OnlyObject) && r == OnlyObject(StrayBraceText[b..j + 1]);
  }

  // ---------------------------------------------------------------------
  // Reference definitions

  /** Height of the brace stack after reading all of `s`, quoting ignored. */
  function Depth(s: string): nat {
    if s == [] then 0 else Step(Depth(s[..|s| - 1]), s[|s| - 1])
  }

  /** The slice `text[start..j+1]` is handed to the parser: it ends at a `}` that leaves the stack empty. */
  ghost predicate Tried(text: string, start: nat, j: int) {
    start <= j < |text| && text[j] == '}' && Depth(text[start..j + 1]) == 0
  }

  /** A tried slice that the parser accepts. */
  ghost predicate Accepts<J>(text: string, start: nat, j: int, parse: string -> Option<J>) {
    Tried(text, start, j) && parse(text[start..j + 1]).Some?
  }

  /** `j` is the first accepted end index at or after `i`. */
  ghost predicate FirstAccepted<J>(text: string, start: nat, i: nat, j: int, parse: string -> Option<J>) {
    i <= j && Accepts(text, start, j, parse) &&
    forall k :: i <= k < j ==> !Accepts(text, start, k, parse)
  }

  /** Moving the scan past an index that is not accepted keeps its contract. */
  lemma ScanSkips<J>(text: string, start: nat, i: nat, next: nat, parse: string -> Option<J>, r: Option<J>)
    requires start <= i < |text| && next == i + 1 && !Accepts(text, start, i, parse)
    requires r.Some? <==> exists j :: next <= j < |text| && Accepts(text, start, j, parse)
    requires r.Some? ==> exists j :: next <= j < |text| && FirstAccepted(text, start, next, j, parse) && r == parse(text[start..j + 1])
    ensures r.Some? <==> exists j :: i <= j < |text| && Accepts(text, start, j, parse)
    ensures r.Some? ==> exists j :: i <= j < |text| && FirstAccepted(text, start, i, j, parse) && r == parse(text[start..j + 1])
  {
    if r.Some? {
      var j :| next <= j < |text| && FirstAccepted(text, start, next, j, parse) && r == parse(text[start..j + 1]);
      assert FirstAccepted(text, start, i, j, parse);
    }
  }

  lemma DepthExtend(text: string, start: nat, i: nat)
    requires start <= i < |text|
    ensures Depth(text[start..i + 1]) == Step(Depth(text[start..i]), text[i])
  {
    assert text[start..i + 1][..i - start] == text[start..i];
  }

  // ---------------------------------------------------------------------
  // Properties

  /** Text without any `{` yields nothing, whatever the parser does. */
  lemma NoOpenBraceNoResult<J>(text: string, parse: string -> Option<J>)
    requires '{' !in text
    ensures ExtractJson(text, parse) == None
  {
  }

  /**
   * The result is exactly the parse of the first accepted candidate; when
   * no candidate is accepted there is no result.
   */
  lemma ExtractIsFirstAccepted<J>(text: string, parse: string -> Option<J>, start: nat, j: nat)
    requires FindOpen(text) == Some(start)
    requires FirstAccepted(text, start, start, j, parse)
    ensures ExtractJson(text, parse) == parse(text[start..j + 1])
  {
    var r := ExtractJson(text, parse);
    assert r.Some?;
    var j' :| start <= j' < |text| && FirstAccepted(text, start, start, j', parse) && r == parse(text[start..j' + 1]);
    assert j' == j;
  }

  /** A candidate that fails to parse is skipped: the scan goes on to later ones. */
  lemma RejectedCandidateSkipped<J>(text: string, parse: string -> Option<J>, start: nat, j: nat)
    requires FindOpen(text) == Some(start)
    requires Tried(text, start, j) && parse(text[start..j + 1]).None?
    requires forall k :: start <= k <= j ==> !Accepts(text, start, k, parse)
    ensures ExtractJson(text, parse).Some? <==> exists k :: j < k < |text| && Accepts(text, start, k, parse)
  {
    var r := ExtractJson(text, parse);
    if r.Some? {
      var k :| start <= k < |text| && Accepts(text, start, k, parse);
      assert j < k;
    }
  }

  function Count(s: string, c: char): nat {
    if s == [] then 0 else Count(s[..|s| - 1], c) + (if s[|s| - 1] == c then 1 else 0)
  }

  /** No prefix of `s` closes more braces than it opens. */
  ghost predicate NeverUnderflows(s: string) {
    forall n :: 0 <= n <= |s| ==> Count(s[..n], '}') <= Count(s[..n], '{')
  }

  /**
   * While no `}` ever meets an empty stack, the depth is the number of `{`
   * minus the number of `}`; so a tried candidate then has balanced braces.
   */
  lemma {:induction false} DepthIsBalance(s: string)
    requires NeverUnderflows(s)
    ensures Depth(s) + Count(s, '}') == Count(s, '{')
    decreases |s|
  {
    if s != [] {
      var p := s[..|s| - 1];
      assert s[..|s|] == s;
      forall n | 0 <= n <= |p|
        ensures Count(p[..n], '}') <= Count(p[..n], '{')
      {
        assert p[..n] == s[..n];
      }
      DepthIsBalance(p);
    }
  }

  /** A candidate tried on text whose braces never underflow has as many `{` as `}`. */
  lemma TriedIsBalanced(text: string, start: nat, j: nat)
    requires Tried(text, start, j)
    requires NeverUnderflows(text[start..j + 1])
    ensures Count(text[start..j + 1], '{') == Count(text[start..j + 1], '}')
  {
    DepthIsBalance(text[start..j + 1]);
  }

  /**
   * Braces inside JSON string literals are counted like any others:
   * in `{"a":"}"}` the `}` inside the quotes already ends a candidate.
   */
  lemma QuotedBraceEndsCandidate()
    ensures Tried("{\"a\":\"}\"}", 0, 6)
  {
    var t := "{\"a\":\"}\"}";
    assert t[0..7] == "{\"a\":\"}";
    assert "{\"a\":\"}"[..6] == "{\"a\":\"";
    assert "{\"a\":\""[..5] == "{\"a\":";
    assert "{\"a\":"[..4] == "{\"a\"";
    assert "{\"a\""[..3] == "{\"a";
    assert "{\"a"[..2] == "{\"";
    assert "{\""[..1] == "{";
    assert "{"[..0] == "";
  }
}
