/** Parsing cron expressions: strategies/task-creation/cron/expression.ts. */
module CronExpression {
  import opened Wrappers
  import opened Text
  import opened CronSpec

  // ----- replaceAsteriskWithRange -----------------------------------------------------

  function WithRange(expr: string, lo: nat, hi: nat): string {
    match IndexOf(expr, '*')
    case None => expr
    case Some(pos) => expr[..pos] + Decimal(lo) + "-" + Decimal(hi) + expr[pos + 1..]
  }

  // ----- convertRange -------------------------------------------------------------------

  /** A match of `(\d+)\-(\d+)`. */
  datatype RangeMatch = RangeMatch(index: nat, first: string, last: string)
  {
    predicate In(s: string) {
      && first != "" && AllDigits(first) && last != "" && AllDigits(last)
      && index + |first| + 1 + |last| <= |s|
      && s == s[..index] + first + "-" + last + s[End()..]
    }

    function End(): nat {
      index + |first| + 1 + |last|
    }
  }

  /** The match that starts at the start of `s`. */
  function MatchAtStart(s: string): (m: Option<RangeMatch>)
    ensures m.Some? ==> m.value.index == 0 && m.value.In(s)
  {
    var n := DigitRun(s);
    if n == 0 || n == |s| || s[n] != '-' then None
    else
      var k := DigitRun(s[n + 1..]);
      if k == 0 then None
      else
        TwoRuns(s, n, k);
        Some(RangeMatch(0, s[..n], s[n + 1..][..k]))
  }

  lemma TwoRuns(s: string, n: nat, k: nat)
    requires 0 < n < |s| && s[n] == '-' && AllDigits(s[..n])
    requires 0 < k <= |s| - n - 1 && AllDigits(s[n + 1..][..k])
    ensures RangeMatch(0, s[..n], s[n + 1..][..k]).In(s)
  {
    var rest := s[n + 1..];
    assert s[..0] == "" && rest[k..] == s[n + 1 + k..];
    assert s == s[..n] + "-" + rest && rest == rest[..k] + rest[k..];
  }

  /** The leftmost match. */
  function FindRange(s: string): (m: Option<RangeMatch>)
    ensures m.Some? ==> m.value.In(s)
  {
    hide RangeMatch.In, MatchAtStart;
    if s == "" then None
    else if MatchAtStart(s).Some? then MatchAtStart(s)
    else
      match FindRange(s[1..])
      case None => None
      case Some(m) =>
        MatchShifts(s, m);
        Some(m.(index := m.index + 1))
  }

  lemma MatchShifts(s: string, m: RangeMatch)
    requires s != "" && m.In(s[1..])
    ensures m.(index := m.index + 1).In(s)
  {
    assert s == [s[0]] + s[1..];
    assert [s[0]] + s[1..][..m.index] == s[..m.index + 1];
    assert s[1..][m.End()..] == s[m.End() + 1..];
  }

  /** `lo,...,hi`. */
  function Numbers(lo: nat, hi: nat): (s: string)
    ensures '-' !in s
    decreases hi + 1 - lo
  {
    if lo > hi then ""
    else if lo == hi then Decimal(lo)
    else Decimal(lo) + "," + Numbers(lo + 1, hi)
  }

  function Dashes(s: string): nat {
    multiset(s)['-']
  }

  /** The expression with its leftmost range written out. */
  function ExpandOne(s: string, m: RangeMatch): (r: string)
    requires m.In(s)
    ensures Dashes(r) == Dashes(s) - 1
  {
    var first, last := Value(m.first), Value(m.last);
    var numbers := if first > last then Numbers(last, first) else Numbers(first, last);
    assert '-' !in m.first && '-' !in m.last;
    assert multiset(s) == multiset(s[..m.index] + m.first + "-" + m.last + s[m.End()..]);
    s[..m.index] + numbers + s[m.End()..]
  }

  /** The expression with every range written out, leftmost first. */
  function Expanded(s: string): (r: string)
    ensures FindRange(r).None?
    decreases Dashes(s)
  {
    match FindRange(s)
    case None => s
    case Some(m) => Expanded(ExpandOne(s, m))
  }

  lemma ExpandedStep(s: string)
    ensures FindRange(s).None? ==> Expanded(s) == s
    ensures FindRange(s).Some? ==> Expanded(s) == Expanded(ExpandOne(s, FindRange(s).value))
  {
  }

  lemma ExpandOneIs(s: string, m: RangeMatch, first: nat, last: nat)
    requires m.In(s) && first <= last
    requires (first == Value(m.first) && last == Value(m.last)) || (first == Value(m.last) && last == Value(m.first))
    ensures ExpandOne(s, m) == s[..m.index] + Numbers(first, last) + s[m.End()..]
  {
  }

  lemma NumbersStep(lo: nat, hi: nat)
    requires lo <= hi
    ensures Numbers(lo, hi) == Decimal(lo) + (if lo != hi then "," else "") + Numbers(lo + 1, hi)
  {
  }

  lemma NoNumbers(lo: nat, hi: nat)
    requires lo > hi
    ensures Numbers(lo, hi) == ""
  {
  }

  /** Each pass of the outer loop takes one dash away, so it ends on every input. */
  method ConvertRange(text: string) returns (expr: string)
    ensures expr == Expanded(text)
  {
    hide Expanded, ExpandOne, FindRange, Numbers, Decimal, Value, Dashes;
    expr := text;
    var found := FindRange(expr);
    while found.Some?
      invariant found == FindRange(expr) && Expanded(expr) == Expanded(text)
      decreases Dashes(expr)
    {
      var m := found.value;
      var nx := expr[..m.index];
      var first, last := Value(m.first), Value(m.last);
      if first > last {
        var t := last;
        last := first;
        first := t;
      }
      ExpandOneIs(expr, m, first, last);
      ExpandedStep(expr);
      var i := first;
      while i <= last
        invariant first <= i <= last + 1
        invariant nx + Numbers(i, last) == expr[..m.index] + Numbers(first, last)
      {
        NumbersStep(i, last);
        nx := nx + Decimal(i);
        if i != last {
          nx := nx + ",";
        }
        i := i + 1;
      }
      NoNumbers(i, last);
      assert nx + "" == nx;
      expr := nx + expr[m.End()..];
      found := FindRange(expr);
    }
    ExpandedStep(expr);
  }

  // ----- convertStep --------------------------------------------------------------------

  /** The text after the first slash, as a number; 1 without a slash. */
  function StepOf(expr: string): Option<int> {
    match IndexOf(expr, '/')
    case None => Some(1)
    case Some(pos) => ParseInt(expr[pos + 1..])
  }

  /** `v % step === 0`, which is false for NaN and for a step of 0. */
  predicate OnStep(v: Option<int>, step: Option<int>) {
    v.Some? && step.Some? && step.value != 0 && v.value % step.value == 0
  }

  function StepValues(parts: seq<string>, step: Option<int>): seq<int> {
    if parts == [] then []
    else
      var v := ParseInt(parts[0]);
      (if OnStep(v, step) then [v.value] else []) + StepValues(parts[1..], step)
  }

  method ConvertStep(expr: string) returns (ret: seq<int>)
    ensures ret == StepValues(Split(expr, ','), StepOf(expr))
  {
    hide IndexOf, ParseInt, Split, StepValues;
    ret := [];
    var slashPos := IndexOf(expr, '/');
    var step := Some(1);
    if slashPos.Some? {
      step := ParseInt(expr[slashPos.value + 1..]);
    }
    var parts := Split(expr, ',');
    assert parts[0..] == parts;
    for i := 0 to |parts|
      invariant ret + StepValues(parts[i..], step) == StepValues(parts, step)
    {
      var v := ParseInt(parts[i]);
      StepValuesFrom(parts, i, step);
      if OnStep(v, step) {
        ret := ret + [v.value];
      }
    }
    assert parts[|parts|..] == [];
    NoStepValues(step);
  }

  lemma StepValuesFrom(parts: seq<string>, i: nat, step: Option<int>)
    requires i < |parts|
    ensures var v := ParseInt(parts[i]);
      StepValues(parts[i..], step) == (if OnStep(v, step) then [v.value] else []) + StepValues(parts[i + 1..], step)
  {
    hide ParseInt;
    assert parts[i..][1..] == parts[i + 1..];
  }

  lemma NoStepValues(step: Option<int>)
    ensures StepValues([], step) == []
  {
  }

  // ----- removeDuplicates -----------------------------------------------------------------

  predicate Increasing(s: seq<int>) {
    forall i, j :: 0 <= i < j < |s| ==> s[i] < s[j]
  }

  lemma ConsIncreasing(v: int, s: seq<int>)
    ensures Increasing([v] + s) <==> Increasing(s) && forall w :: w in s ==> v < w
  {
    var t := [v] + s;
    if Increasing(t) {
      forall i, j | 0 <= i < j < |s| ensures s[i] < s[j] {
        assert t[i + 1] < t[j + 1];
      }
      forall w | w in s ensures v < w {
        var i :| 0 <= i < |s| && s[i] == w;
        assert t[0] < t[i + 1];
      }
    } else {
      var i, j :| 0 <= i < j < |t| && t[i] >= t[j];
      assert t[j] == s[j - 1] && s[j - 1] in s;
      assert i > 0 ==> t[i] == s[i - 1] && s[i - 1] >= s[j - 1];
    }
  }

  /** The values between `lo` and `hi` that are listed, in order. */
  function Listed(vals: seq<int>, lo: int, hi: int): (s: seq<int>)
    ensures forall v :: v in s <==> v in vals && lo <= v <= hi
    ensures Increasing(s)
    decreases hi + 1 - lo
  {
    if lo > hi then []
    else if lo !in vals then Listed(vals, lo + 1, hi)
    else
      ConsIncreasing(lo, Listed(vals, lo + 1, hi));
      [lo] + Listed(vals, lo + 1, hi)
  }

  lemma HeadIsIn(s: seq<int>)
    ensures s == [] || s[0] in s
  {
  }

  /** An increasing list is determined by its values. */
  lemma {:induction false} SameValuesSameList(s: seq<int>, t: seq<int>)
    requires Increasing(s) && Increasing(t) && forall v :: v in s <==> v in t
    ensures s == t
  {
    HeadIsIn(s);
    HeadIsIn(t);
    if s != [] {
      var s', t' := s[1..], t[1..];
      assert s == [s[0]] + s' && t == [t[0]] + t';
      ConsIncreasing(s[0], s');
      ConsIncreasing(t[0], t');
      assert s[0] == t[0];
      assert forall v :: v in s <==> v == s[0] || v in s';
      assert forall v :: v in t <==> v == t[0] || v in t';
      SameValuesSameList(s', t');
    }
  }

  function Insert(v: int, s: seq<int>): seq<int> {
    if s == [] || v <= s[0] then [v] + s else [s[0]] + Insert(v, s[1..])
  }

  /** The numeric sort of the library. */
  function SortNumeric(s: seq<int>): seq<int> {
    if s == [] then [] else Insert(s[0], SortNumeric(s[1..]))
  }

  lemma {:induction false} InsertIncreasing(v: int, s: seq<int>)
    requires Increasing(s) && v !in s
    ensures Increasing(Insert(v, s)) && forall w :: w in Insert(v, s) <==> w == v || w in s
  {
    ConsIncreasing(v, s);
    if s != [] {
      assert s == [s[0]] + s[1..];
      ConsIncreasing(s[0], s[1..]);
      if s[0] < v {
        InsertIncreasing(v, s[1..]);
        ConsIncreasing(s[0], Insert(v, s[1..]));
      }
    }
  }

  predicate Distinct(s: seq<int>) {
    forall i, j :: 0 <= i < j < |s| ==> s[i] != s[j]
  }

  lemma {:induction false} SortIncreasing(s: seq<int>)
    requires Distinct(s)
    ensures Increasing(SortNumeric(s)) && forall v :: v in SortNumeric(s) <==> v in s
  {
    if s != [] {
      assert s == [s[0]] + s[1..];
      SortIncreasing(s[1..]);
      InsertIncreasing(s[0], SortNumeric(s[1..]));
    }
  }

  method RemoveDuplicates(vals: seq<int>, lo: int, hi: int) returns (r: seq<int>)
    ensures r == Listed(vals, lo, hi)
  {
    var ret := [];
    for i := 0 to |vals|
      invariant Distinct(ret)
      invariant forall v :: v in ret <==> v in vals[..i] && lo <= v <= hi
    {
      var v := vals[i];
      assert vals[..i + 1] == vals[..i] + [v];
      if lo <= v <= hi && v !in ret {
        ret := ret + [v];
      }
    }
    assert vals[..|vals|] == vals;
    SortIncreasing(ret);
    r := SortNumeric(ret);
    SameValuesSameList(r, Listed(vals, lo, hi));
  }

  // ----- convertToModel and cronToModel ---------------------------------------------------

  function FieldValues(expr: string, lo: nat, hi: nat): seq<int> {
    var expanded := Expanded(WithRange(expr, lo, hi));
    Listed(StepValues(Split(expanded, ','), StepOf(expanded)), lo, hi)
  }

  method ConvertToModel(expr: string, lo: nat, hi: nat) returns (r: seq<int>)
    ensures r == FieldValues(expr, lo, hi)
  {
    var expanded := ConvertRange(WithRange(expr, lo, hi));
    var vals := ConvertStep(expanded);
    r := RemoveDuplicates(vals, lo, hi);
  }

  function SundayIsZero(vals: seq<int>): seq<int> {
    if vals == [] then [] else [if vals[0] == 7 then 0 else vals[0]] + SundayIsZero(vals[1..])
  }

  lemma {:induction false} SundayAt(vals: seq<int>, i: nat)
    requires i < |vals|
    ensures |SundayIsZero(vals)| == |vals| && SundayIsZero(vals)[i] == if vals[i] == 7 then 0 else vals[i]
  {
    if |vals| > 1 {
      SundayAt(vals[1..], if i == 0 then 0 else i - 1);
    }
  }

  /** Writes Sunday as 0 in place. */
  method HandleSundays(vals: array<int>) returns (r: seq<int>)
    modifies vals
    ensures vals[..] == SundayIsZero(old(vals[..]))
    ensures r == Listed(SundayIsZero(old(vals[..])), 0, 6)
  {
    hide Listed;
    var n := vals.Length;
    for i := 0 to n
      invariant forall k :: 0 <= k < i ==> vals[k] == if old(vals[k]) == 7 then 0 else old(vals[k])
      invariant forall k :: i <= k < n ==> vals[k] == old(vals[k])
    {
      if vals[i] == 7 {
        vals[i] := 0;
      }
    }
    ghost var was := old(vals[..]);
    assert n == 0 ==> was == [];
    forall k | 0 <= k < n ensures |SundayIsZero(was)| == n && vals[..][k] == SundayIsZero(was)[k] {
      SundayAt(was, k);
    }
    r := RemoveDuplicates(vals[..], 0, 6);
  }

  /** `split(/\s+/g)`. */
  function Words(text: string): (words: seq<string>)
    decreases |text|
  {
    var n := BlankAt(text);
    if n == |text| then [text]
    else
      assert text[n..] != "";
      [text[..n]] + Words(AfterBlanks(text[n..]))
  }

  /** Where the first blank is, or the end. */
  function BlankAt(text: string): (n: nat)
    ensures n <= |text| && (n < |text| ==> IsSpace(text[n])) && forall i :: 0 <= i < n ==> !IsSpace(text[i])
  {
    if text == "" || IsSpace(text[0]) then 0 else 1 + BlankAt(text[1..])
  }

  function AfterBlanks(text: string): (rest: string)
    ensures |rest| <= |text| && (text != "" && IsSpace(text[0]) ==> |rest| < |text|)
  {
    if text == "" || !IsSpace(text[0]) then text else AfterBlanks(text[1..])
  }

  function SixFields(words: seq<string>): seq<string> {
    if |words| == 5 then ["*"] + words else words
  }

  /** What an expression says, None when it does not have five or six fields. */
  function ParsedModel(text: string): Option<CronModel> {
    var parts := SixFields(Words(text));
    if |parts| != 6 then None
    else Some(CronModel(
      FieldValues(parts[0], 0, 59),
      FieldValues(parts[1], 0, 59),
      FieldValues(parts[2], 0, 23),
      FieldValues(parts[3], 1, 31),
      FieldValues(parts[4], 1, 12),
      Listed(SundayIsZero(FieldValues(parts[5], 0, 7)), 0, 6)))
  }

  method CronToModel(text: string) returns (model: Option<CronModel>)
    ensures model == ParsedModel(text)
  {
    hide Words, FieldValues, Listed, SundayIsZero;
    var parts := Words(text);
    if |parts| == 5 {
      parts := ["*"] + parts;
    }
    if |parts| != 6 {
      return None;
    }
    var seconds := ConvertToModel(parts[0], 0, 59);
    var minutes := ConvertToModel(parts[1], 0, 59);
    var hours := ConvertToModel(parts[2], 0, 23);
    var daysOfMonth := ConvertToModel(parts[3], 1, 31);
    var months := ConvertToModel(parts[4], 1, 12);
    var weekdays := ConvertToModel(parts[5], 0, 7);
    var vals := new int[|weekdays|](i requires 0 <= i < |weekdays| => weekdays[i]);
    assert vals[..] == weekdays;
    var daysOfWeek := HandleSundays(vals);
    model := Some(CronModel(seconds, minutes, hours, daysOfMonth, months, daysOfWeek));
  }
}
