/** Earning weights: the model-id glob, and the integer scaling that credits tokens without losing fractions. */
module IncenseWeight {
  import opened Arithmetic

  // ----- glob matching -----

  /** `pattern.split('*')`: always at least one part. */
  function Split(pattern: string): (parts: seq<string>)
    ensures |parts| >= 1
  {
    if pattern == "" then [""]
    else
      var rest := Split(pattern[1..]);
      if pattern[0] == '*' then [""] + rest else [[pattern[0]] + rest[0]] + rest[1..]
  }

  /** Glob semantics, one character at a time: a star stands for any run of characters, anything else for itself. */
  predicate Glob(pattern: string, value: string)
    decreases |pattern|, |value|
  {
    if pattern == "" then value == ""
    else if pattern[0] == '*' then Glob(pattern[1..], value) || (value != "" && Glob(pattern, value[1..]))
    else value != "" && value[0] == pattern[0] && Glob(pattern[1..], value[1..])
  }

  /** The value is the parts in order, with an arbitrary gap between neighbours. */
  ghost predicate Fits(parts: seq<string>, value: string)
    requires |parts| >= 1
    decreases |parts|, 0
  {
    if |parts| == 1 then value == parts[0]
    else parts[0] <= value && FitsAfterGap(parts[1..], value[|parts[0]|..])
  }

  ghost predicate FitsAfterGap(parts: seq<string>, value: string)
    requires |parts| >= 1
    decreases |parts|, 1
  {
    exists i :: 0 <= i <= |value| && Fits(parts, value[i..])
  }

  ghost predicate MatchesSuffix(pattern: string, value: string) {
    exists i :: 0 <= i <= |value| && Glob(pattern, value[i..])
  }

  /** A leading star skips any prefix. */
  lemma {:induction false} StarSkipsPrefix(pattern: string, value: string)
    requires pattern != "" && pattern[0] == '*'
    ensures Glob(pattern, value) <==> MatchesSuffix(pattern[1..], value)
    decreases |value|
  {
    assert value[0..] == value;
    if value != "" {
      var rest := value[1..];
      StarSkipsPrefix(pattern, rest);
      if MatchesSuffix(pattern[1..], rest) {
        var i :| 0 <= i <= |rest| && Glob(pattern[1..], rest[i..]);
        assert rest[i..] == value[i + 1..];
      }
      if MatchesSuffix(pattern[1..], value) && !Glob(pattern[1..], value) {
        var i :| 0 <= i <= |value| && Glob(pattern[1..], value[i..]);
        assert value[i..] == rest[i - 1..];
      }
    }
  }

  /** Splitting at the stars keeps the meaning of a pattern. */
  lemma {:induction false} SplitKeepsMeaning(pattern: string, value: string)
    ensures Glob(pattern, value) <==> Fits(Split(pattern), value)
    decreases |pattern|
  {
    if pattern != "" {
      var rest := Split(pattern[1..]);
      if pattern[0] == '*' {
        StarSkipsPrefix(pattern, value);
        forall i | 0 <= i <= |value| ensures Glob(pattern[1..], value[i..]) <==> Fits(rest, value[i..]) {
          SplitKeepsMeaning(pattern[1..], value[i..]);
        }
        assert MatchesSuffix(pattern[1..], value) <==> FitsAfterGap(rest, value);
        assert Split(pattern)[1..] == rest && value[0..] == value;
      } else if value != "" {
        SplitKeepsMeaning(pattern[1..], value[1..]);
        LiteralHead(pattern[0], rest, value);
        assert Split(pattern) == [[pattern[0]] + rest[0]] + rest[1..];
      }
    }
  }

  lemma LiteralHead(head: char, rest: seq<string>, value: string)
    requires |rest| >= 1 && value != ""
    ensures Fits([[head] + rest[0]] + rest[1..], value) <==> value[0] == head && Fits(rest, value[1..])
  {
    var part := [head] + rest[0];
    var parts := [part] + rest[1..];
    assert parts[1..] == rest[1..];
    if |rest| > 1 {
      assert part <= value <==> value[0] == head && rest[0] <= value[1..];
      if part <= value {
        assert value[|part|..] == value[1..][|rest[0]|..];
      }
    } else if value[0] == head {
      assert value == [head] + value[1..];
    }
  }

  /** Anything that fits after a gap also fits after a longer one. */
  lemma GapAbsorbsMore(parts: seq<string>, value: string, i: nat, j: nat)
    requires |parts| >= 1 && i <= j <= |value| && FitsAfterGap(parts, value[j..])
    ensures FitsAfterGap(parts, value[i..])
  {
    var k :| 0 <= k <= |value[j..]| && Fits(parts, value[j..][k..]);
    assert value[j..][k..] == value[i..][j - i + k..];
  }

  predicate OccursAt(part: string, value: string, i: int) {
    0 <= i && i + |part| <= |value| && value[i..i + |part|] == part
  }

  /** `value.indexOf(part, from)`: the leftmost occurrence at or after an offset, or -1. */
  function IndexFrom(part: string, value: string, from: nat): (found: int)
    requires from <= |value|
    ensures found < 0 ==> forall i :: from <= i ==> !OccursAt(part, value, i)
    ensures found >= 0 ==> from <= found && OccursAt(part, value, found)
                           && forall i :: from <= i < found ==> !OccursAt(part, value, i)
    decreases |value| - from
  {
    if OccursAt(part, value, from) then from
    else if from == |value| then -1
    else IndexFrom(part, value, from + 1)
  }

  /** Taking the leftmost occurrence of the next part never loses a match. */
  lemma LeftmostIsEnough(parts: seq<string>, value: string, offset: nat)
    requires |parts| >= 2 && offset <= |value|
    ensures var found := IndexFrom(parts[0], value, offset);
            FitsAfterGap(parts, value[offset..]) <==>
              found >= 0 && FitsAfterGap(parts[1..], value[found + |parts[0]|..])
  {
    var found := IndexFrom(parts[0], value, offset);
    if FitsAfterGap(parts, value[offset..]) {
      var i := FitsAt(parts, value, offset);
      GapAbsorbsMore(parts[1..], value, found + |parts[0]|, i + |parts[0]|);
    } else if found >= 0 {
      if FitsAfterGap(parts[1..], value[found + |parts[0]|..]) {
        FitsFrom(parts, value, offset, found);
      }
    }
  }

  lemma FitsFrom(parts: seq<string>, value: string, offset: nat, found: nat)
    requires |parts| >= 2 && offset <= found <= |value| && OccursAt(parts[0], value, found)
    requires FitsAfterGap(parts[1..], value[found + |parts[0]|..])
    ensures FitsAfterGap(parts, value[offset..])
  {
    StartsAt(parts[0], value, found);
    assert Fits(parts, value[found..]);
    assert value[offset..][found - offset..] == value[found..];
  }

  /** An occurrence is a prefix of what follows it, and leaves the same rest. */
  lemma StartsAt(part: string, value: string, i: nat)
    requires i <= |value|
    ensures part <= value[i..] <==> OccursAt(part, value, i)
    ensures OccursAt(part, value, i) ==> value[i..][|part|..] == value[i + |part|..]
  {
    if i + |part| <= |value| {
      assert value[i..][..|part|] == value[i..i + |part|];
    }
  }

  lemma FitsAt(parts: seq<string>, value: string, offset: nat) returns (i: nat)
    requires |parts| >= 2 && offset <= |value| && FitsAfterGap(parts, value[offset..])
    ensures offset <= i && OccursAt(parts[0], value, i) && FitsAfterGap(parts[1..], value[i + |parts[0]|..])
  {
    var k :| 0 <= k <= |value[offset..]| && Fits(parts, value[offset..][k..]);
    i := offset + k;
    assert value[offset..][k..] == value[i..];
    StartsAt(parts[0], value, i);
  }

  predicate EndsWith(value: string, suffix: string) {
    |suffix| <= |value| && value[|value| - |suffix|..] == suffix
  }

  lemma LastPart(last: string, value: string, offset: nat)
    requires offset <= |value|
    ensures FitsAfterGap([last], value[offset..]) <==> EndsWith(value, last) && offset <= |value| - |last|
  {
    if FitsAfterGap([last], value[offset..]) {
      var i :| 0 <= i <= |value[offset..]| && Fits([last], value[offset..][i..]);
      assert value[offset..][i..] == value[offset + i..];
      assert offset + i == |value| - |last|;
    }
    if EndsWith(value, last) && offset <= |value| - |last| {
      var i := |value| - |last| - offset;
      assert value[offset..][i..] == value[|value| - |last|..];
      assert Fits([last], value[offset..][i..]);
    }
  }

  /** Whole-id matching, greedy from the left: prefix and suffix are checked first, the parts between them are
      searched one after the other, and what is left must still have room for the suffix. */
  method Matches(pattern: string, value: string) returns (r: bool)
    ensures r <==> Glob(pattern, value)
  {
    hide Fits, FitsAfterGap, Glob, Split;
    SplitKeepsMeaning(pattern, value);
    var parts := Split(pattern);
    if |parts| == 1 {
      SingletonPattern(pattern, value);
      return value == pattern;
    }
    var first := parts[0];
    var last := parts[|parts| - 1];
    NeedsEnds(parts, value);
    if !(first <= value) || !EndsWith(value, last) {
      return false;
    }
    var offset: nat := |first|;
    var k := 1;
    while k < |parts| - 1
      invariant 1 <= k <= |parts| - 1 && offset <= |value|
      invariant Fits(parts, value) <==> FitsAfterGap(parts[k..], value[offset..])
    {
      NextPart(parts, k, value, offset);
      var found := IndexFrom(parts[k], value, offset);
      if found < 0 {
        return false;
      }
      offset := found + |parts[k]|;
      k := k + 1;
    }
    assert parts[k..] == [last];
    LastPart(last, value, offset);
    return offset <= |value| - |last|;
  }

  lemma NextPart(parts: seq<string>, k: nat, value: string, offset: nat)
    requires k + 1 < |parts| && offset <= |value|
    ensures var found := IndexFrom(parts[k], value, offset);
            FitsAfterGap(parts[k..], value[offset..]) <==>
              found >= 0 && FitsAfterGap(parts[k + 1..], value[found + |parts[k]|..])
  {
    LeftmostIsEnough(parts[k..], value, offset);
    assert parts[k..][1..] == parts[k + 1..];
  }

  lemma NeedsEnds(parts: seq<string>, value: string)
    requires |parts| >= 2
    ensures Fits(parts, value) ==> parts[0] <= value && EndsWith(value, parts[|parts| - 1])
    ensures parts[0] <= value ==> (Fits(parts, value) <==> FitsAfterGap(parts[1..], value[|parts[0]|..]))
  {
    NeedsSuffix(parts, value);
  }

  lemma SingletonPattern(pattern: string, value: string)
    requires |Split(pattern)| == 1
    ensures Fits(Split(pattern), value) <==> value == pattern
  {
    SingletonSplit(pattern);
  }

  lemma SingletonSplit(pattern: string)
    ensures |Split(pattern)| == 1 ==> Split(pattern)[0] == pattern
  {
  }

  lemma {:induction false} NeedsSuffix(parts: seq<string>, value: string)
    requires |parts| >= 1
    ensures Fits(parts, value) ==> EndsWith(value, parts[|parts| - 1])
    decreases |parts|
  {
    if |parts| > 1 && Fits(parts, value) {
      var tail := value[|parts[0]|..];
      assert FitsAfterGap(parts[1..], tail);
      var i :| 0 <= i <= |tail| && Fits(parts[1..], tail[i..]);
      NeedsSuffix(parts[1..], tail[i..]);
      assert tail[i..] == value[|parts[0]| + i..];
    }
  }

  // ----- weights -----

  const SCALE := 10_000
  const FALLBACK_WEIGHT_BPS := 5_000

  datatype Rule = Rule(pattern: string, weightBps: nat)

  const DEFAULT_RULES: seq<Rule> := [
    Rule("deepseek-flash", 5_000), Rule("deepseek-*-flash", 5_000), Rule("deepseek-*-flash-*", 5_000),
    Rule("deepseek-pro", 10_000), Rule("deepseek-*-pro", 10_000), Rule("deepseek-*-pro-*", 10_000)]

  predicate IsIdChar(c: char) {
    'a' <= c <= 'z' || '0' <= c <= '9' || c == '.' || c == '_' || c == '-'
  }

  /** `/^[a-z0-9][a-z0-9._-]{0,159}$/` */
  predicate IsModelId(id: string) {
    1 <= |id| <= 160 && id[0] !in "._-" && forall c :: c in id ==> IsIdChar(c)
  }

  function FirstMatch(rules: seq<Rule>, id: string): (weightBps: nat)
    ensures (forall r :: r in rules ==> r.weightBps <= SCALE) ==> weightBps <= SCALE
  {
    if rules == [] then FALLBACK_WEIGHT_BPS
    else if Glob(rules[0].pattern, id) then rules[0].weightBps
    else FirstMatch(rules[1..], id)
  }

  /** The first matching rule decides, whatever the rules after it say; with none, the fallback does. */
  lemma {:induction false} FirstRuleDecides(rules: seq<Rule>, id: string, k: nat)
    requires k <= |rules| && (forall j :: 0 <= j < k ==> !Glob(rules[j].pattern, id)) && (k < |rules| ==> Glob(rules[k].pattern, id))
    ensures FirstMatch(rules, id) == if k < |rules| then rules[k].weightBps else FALLBACK_WEIGHT_BPS
  {
    if k > 0 {
      FirstRuleDecides(rules[1..], id, k - 1);
    }
  }

  /** The first rule whose pattern matches the whole canonical id decides; labels and malformed ids get the fallback. */
  function WeightForModel(id: string): (weightBps: nat)
    ensures weightBps <= SCALE
  {
    if !IsModelId(id) then FALLBACK_WEIGHT_BPS else FirstMatch(DEFAULT_RULES, id)
  }

  predicate IsFlash(id: string) {
    Glob("deepseek-flash", id) || Glob("deepseek-*-flash", id) || Glob("deepseek-*-flash-*", id)
  }

  predicate IsPro(id: string) {
    Glob("deepseek-pro", id) || Glob("deepseek-*-pro", id) || Glob("deepseek-*-pro-*", id)
  }

  /** By the shipped rules a model earns in full exactly when it is named, is a pro model and no flash one; anything else earns half. */
  lemma FullWeightExactly(id: string)
    ensures WeightForModel(id) == if IsModelId(id) && IsPro(id) && !IsFlash(id) then 10_000 else 5_000
  {
    hide Glob, IsModelId, FirstMatch;
    var rules := DEFAULT_RULES;
    var k := if Glob(rules[0].pattern, id) then 0 else if Glob(rules[1].pattern, id) then 1 else if Glob(rules[2].pattern, id) then 2
             else if Glob(rules[3].pattern, id) then 3 else if Glob(rules[4].pattern, id) then 4 else if Glob(rules[5].pattern, id) then 5 else 6;
    FirstRuleDecides(rules, id, k);
  }

  datatype Scaled = Scaled(scaled: nat, carry: nat)

  /** Scale a raw count by a weight in basis points, carrying what is less than one token. */
  function ScaleTokens(raw: nat, weightBps: nat, carry: nat): (s: Scaled)
  {
    var total := (raw % SCALE) * weightBps + carry;
    Scaled((raw / SCALE) * weightBps + total / SCALE, total % SCALE)
  }

  /** Scaling is exact: nothing is lost between the credited tokens and the carry. */
  lemma ScaleIsExact(raw: nat, weightBps: nat, carry: nat)
    ensures var s := ScaleTokens(raw, weightBps, carry);
            SCALE * s.scaled + s.carry == raw * weightBps + carry && s.carry < SCALE
  {
    var q, r := raw / SCALE, raw % SCALE;
    var total := r * weightBps + carry;
    assert raw == SCALE * q + r;
    assert (SCALE * q + r) * weightBps == SCALE * (q * weightBps) + r * weightBps;
    assert total == SCALE * (total / SCALE) + total % SCALE;
  }

  /** With a weight of at most one and a carry below one token, a request never earns more than its raw size. */
  lemma NeverAboveRaw(raw: nat, weightBps: nat, carry: nat)
    requires weightBps <= SCALE && carry < SCALE
    ensures ScaleTokens(raw, weightBps, carry).scaled <= raw
  {
    ScaleIsExact(raw, weightBps, carry);
    assert raw * (SCALE - weightBps) >= 0;
    assert raw * weightBps <= raw * SCALE;
  }

  datatype Sides = Sides(input: int, output: int)

  /** Split a scaled total back into input and output in the raw ratio. */
  function SplitScaled(scaled: nat, deltaInput: nat, deltaOutput: nat): Sides {
    var raw := deltaInput + deltaOutput;
    if scaled == 0 || raw == 0 then Sides(0, 0)
    else
      var input := (scaled * deltaInput) / raw;
      Sides(input, scaled - input)
  }

  /** The split adds up, keeps both sides non-negative, and gives input its share rounded down; only tokens that
      belong to no request (a carry credited on a zero-size one) are dropped. */
  lemma SplitAddsUp(scaled: nat, deltaInput: nat, deltaOutput: nat)
    ensures var s := SplitScaled(scaled, deltaInput, deltaOutput);
            && s.input >= 0 && s.output >= 0
            && (s.input + s.output == scaled <==> scaled == 0 || deltaInput + deltaOutput > 0)
            && s.input * (deltaInput + deltaOutput) <= scaled * deltaInput
            && (deltaInput + deltaOutput > 0 ==> scaled * deltaInput < (s.input + 1) * (deltaInput + deltaOutput))
  {
    var raw := deltaInput + deltaOutput;
    if scaled > 0 && raw > 0 {
      ProductGrows(scaled, deltaInput, raw);
      QuotientReaches(scaled * deltaInput, raw, scaled + 1);
      QuotientReaches(scaled * deltaInput, raw, (scaled * deltaInput) / raw + 1);
      QuotientReaches(scaled * deltaInput, raw, 0);
      QuotientReaches(scaled * deltaInput, raw, (scaled * deltaInput) / raw);
      assert (scaled + 1) * raw == scaled * raw + raw;
    }
  }
}
