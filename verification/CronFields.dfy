/** What a cron field that is written as usual parses to. */
module CronFields {
  import opened Wrappers
  import opened Text
  import opened CronExpression

  /** `n`, `a-b` in either order, or `*`. */
  datatype Item = Number(n: nat) | Range(a: nat, b: nat) | Every

  /** Items between commas, with an optional step at the end. */
  datatype Field = Field(items: seq<Item>, step: Option<nat>)

  function ItemText(item: Item): (s: string)
    ensures s != "" && forall c :: c in s ==> IsDigit(c) || c == '-' || c == '*'
    ensures !item.Every? ==> '*' !in s
    ensures item.Number? ==> AllDigits(s)
  {
    match item
    case Number(n) => Decimal(n)
    case Range(a, b) => Decimal(a) + "-" + Decimal(b)
    case Every => "*"
  }

  function ItemsText(items: seq<Item>): (s: string)
    requires items != []
    ensures s != "" && forall c :: c in s ==> IsDigit(c) || c == '-' || c == '*' || c == ','
  {
    if |items| == 1 then ItemText(items[0]) else ItemText(items[0]) + "," + ItemsText(items[1..])
  }

  function StepText(step: Option<nat>): (s: string)
    ensures EndsDigits(s) && forall c :: c in s ==> IsDigit(c) || c == '/'
  {
    match step
    case None => ""
    case Some(n) => "/" + Decimal(n)
  }

  function FieldText(f: Field): string
    requires f.items != []
  {
    ItemsText(f.items) + StepText(f.step)
  }

  /** The text after the first item. */
  function After(items: seq<Item>, tail: string): (s: string)
    requires items != []
    ensures EndsDigits(tail) ==> EndsDigits(s)
  {
    if |items| == 1 then tail else "," + ItemsText(items[1..]) + tail
  }

  lemma Regroup(p: string, a: string, comma: string, b: string, tail: string)
    ensures p + (a + comma + b) + tail == p + a + (comma + b + tail)
    ensures p + a + (comma + b + tail) == (p + a + comma) + b + tail
  {
  }

  lemma Unfold(p: string, items: seq<Item>, tail: string)
    requires items != []
    ensures p + ItemsText(items) + tail == p + ItemText(items[0]) + After(items, tail)
    ensures |items| > 1 ==>
      p + ItemText(items[0]) + After(items, tail) == (p + ItemText(items[0]) + ",") + ItemsText(items[1..]) + tail
  {
    hide ItemText;
    if |items| > 1 {
      Regroup(p, ItemText(items[0]), ",", ItemsText(items[1..]), tail);
    }
  }

  lemma {:induction false} JoinTexts(xs: seq<Item>, ys: seq<Item>)
    requires xs != [] && ys != []
    ensures ItemsText(xs + ys) == ItemsText(xs) + "," + ItemsText(ys)
  {
    if |xs| == 1 {
      assert (xs + ys)[1..] == ys;
    } else {
      assert (xs + ys)[1..] == xs[1..] + ys;
      JoinTexts(xs[1..], ys);
    }
  }

  // ----- the asterisk -------------------------------------------------------------------

  /** The first `*` stands for the whole range of the field. */
  function Ranged(items: seq<Item>, lo: nat, hi: nat): (r: seq<Item>)
    ensures |r| == |items|
  {
    if items == [] then []
    else if items[0].Every? then [Range(lo, hi)] + items[1..]
    else [items[0]] + Ranged(items[1..], lo, hi)
  }

  lemma {:induction false} AsteriskIsRange(p: string, items: seq<Item>, tail: string, lo: nat, hi: nat)
    requires items != [] && '*' !in p && '*' !in tail
    ensures WithRange(p + ItemsText(items) + tail, lo, hi) == p + ItemsText(Ranged(items, lo, hi)) + tail
    decreases |items|
  {
    hide ItemsText, After;
    Unfold(p, items, tail);
    var ranged := Ranged(items, lo, hi);
    Unfold(p, ranged, tail);
    SameAfter(items, ranged, tail);
    if items[0].Every? {
      hide Ranged;
      assert ranged == [Range(lo, hi)] + items[1..];
      RangeForAsterisk(p, After(items, tail), lo, hi);
    } else if |items| == 1 {
      assert ranged == items;
      Single(items, tail);
      NoAsterisk(p + ItemsText(items) + tail, lo, hi);
    } else {
      assert ranged[1..] == Ranged(items[1..], lo, hi);
      AsteriskIsRange(p + ItemText(items[0]) + ",", items[1..], tail, lo, hi);
    }
  }

  lemma Single(items: seq<Item>, tail: string)
    requires |items| == 1
    ensures ItemsText(items) == ItemText(items[0]) && After(items, tail) == tail
  {
  }

  lemma SameAfter(items: seq<Item>, others: seq<Item>, tail: string)
    requires items != [] && |items| == |others|
    ensures items[1..] == others[1..] ==> After(items, tail) == After(others, tail)
  {
  }

  lemma NoAsterisk(s: string, lo: nat, hi: nat)
    requires '*' !in s
    ensures WithRange(s, lo, hi) == s
  {
  }

  lemma RangeForAsterisk(p: string, rest: string, lo: nat, hi: nat)
    requires '*' !in p
    ensures WithRange(p + "*" + rest, lo, hi) == p + ItemText(Range(lo, hi)) + rest
  {
    hide Decimal;
    IndexOfFirst(p, '*', rest);
    var s := p + ['*'] + rest;
    assert s[..|p|] == p && s[|p| + 1..] == rest;
    Regroup(p, Decimal(lo), "-", Decimal(hi), rest);
  }

  // ----- ranges -----------------------------------------------------------------------------

  /** Where a list may end and a match of digits cannot begin. */
  predicate Separated(p: string) {
    p == "" || !IsDigit(p[|p| - 1])
  }

  lemma RangesHaveDashes(s: string)
    ensures FindRange(s).Some? ==> '-' in s
  {
    if FindRange(s).Some? {
      var m := FindRange(s).value;
      assert s[m.index + |m.first|] == '-';
    }
  }

  lemma NoDashNoRange(s: string)
    requires '-' !in s
    ensures Expanded(s) == s
  {
    hide FindRange;
    RangesHaveDashes(s);
    ExpandedStep(s);
  }

  lemma RangeAtStart(first: string, last: string, rest: string)
    requires first != "" && AllDigits(first) && last != "" && AllDigits(last) && EndsDigits(rest)
    ensures MatchAtStart(first + "-" + last + rest) == Some(RangeMatch(0, first, last))
  {
    hide DigitRun, RangeMatch.In;
    var s, u := first + "-" + last + rest, last + rest;
    assert s == first + ("-" + u);
    DigitRunOf(first, "-" + u);
    assert s[|first|] == '-' && s[|first| + 1..] == u;
    DigitRunOf(last, rest);
  }

  /** The leftmost match lies after a text without dashes that does not end in a digit. */
  lemma {:induction false} FindAfter(p: string, s: string)
    requires '-' !in p && Separated(p) && s != "" && MatchAtStart(s).Some?
    ensures FindRange(p + s) == Some(MatchAtStart(s).value.(index := |p|))
    decreases |p|
  {
    hide MatchAtStart, RangeMatch.In;
    if p == "" {
      assert p + s == s;
    } else {
      var t := p + s;
      NoMatchInside(p, s);
      assert t[1..] == p[1..] + s && t != "";
      FindAfter(p[1..], s);
    }
  }

  lemma NoMatchInside(p: string, s: string)
    requires p != "" && '-' !in p && Separated(p)
    ensures MatchAtStart(p + s).None?
  {
    hide DigitRun;
    var n := DigitRun(p + s);
    RunEndsInside(p, s);
    assert (p + s)[n] == p[n];
  }

  lemma {:induction false} RunEndsInside(p: string, s: string)
    requires p != "" && Separated(p)
    ensures DigitRun(p + s) < |p|
  {
    var t := p + s;
    assert t[0] == p[0] && t[1..] == p[1..] + s;
    if |p| > 1 {
      RunEndsInside(p[1..], s);
    }
  }

  /** The numbers of an item, in the order they are written out. */
  function Spelled(item: Item): (items: seq<Item>)
    requires !item.Every?
    ensures items != [] && forall i :: 0 <= i < |items| ==> items[i].Number?
  {
    match item
    case Number(_) => [item]
    case Range(a, b) => if a > b then Counted(b, a) else Counted(a, b)
  }

  function Counted(lo: nat, hi: nat): (items: seq<Item>)
    requires lo <= hi
    ensures items != [] && forall v: nat :: Number(v) in items <==> lo <= v <= hi
    ensures forall i :: 0 <= i < |items| ==> items[i].Number?
    decreases hi - lo
  {
    if lo == hi then [Number(lo)] else [Number(lo)] + Counted(lo + 1, hi)
  }

  lemma {:induction false} NumbersText(lo: nat, hi: nat)
    requires lo <= hi
    ensures Numbers(lo, hi) == ItemsText(Counted(lo, hi))
    decreases hi - lo
  {
    if lo < hi {
      NumbersText(lo + 1, hi);
      assert Counted(lo, hi)[1..] == Counted(lo + 1, hi);
    }
  }

  /** One pass over a range that comes first. */
  lemma RangeIsSpelled(p: string, a: nat, b: nat, rest: string)
    requires '-' !in p && Separated(p) && EndsDigits(rest)
    ensures Expanded(p + ItemText(Range(a, b)) + rest) == Expanded(p + ItemsText(Spelled(Range(a, b))) + rest)
  {
    hide MatchAtStart, FindRange, Numbers, Decimal, Value, ItemsText, Counted, Expanded, ExpandOne, RangeMatch.In;
    var first, last := Decimal(a), Decimal(b);
    var s := p + (first + "-" + last) + rest;
    assert s == p + (first + "-" + last + rest);
    RangeAtStart(first, last, rest);
    FindAfter(p, first + "-" + last + rest);
    ExpandedStep(s);
    ValueOfDecimal(a);
    ValueOfDecimal(b);
    if a > b {
      ExpandsAt(p, first, last, rest, b, a);
      NumbersText(b, a);
    } else {
      ExpandsAt(p, first, last, rest, a, b);
      NumbersText(a, b);
    }
  }

  lemma ExpandsAt(p: string, first: string, last: string, rest: string, lo: nat, hi: nat)
    requires AllDigits(first) && AllDigits(last) && lo <= hi
    requires (lo == Value(first) && hi == Value(last)) || (lo == Value(last) && hi == Value(first))
    requires RangeMatch(|p|, first, last).In(p + (first + "-" + last) + rest)
    ensures ExpandOne(p + (first + "-" + last) + rest, RangeMatch(|p|, first, last)) == p + Numbers(lo, hi) + rest
  {
    hide Value, Numbers, ExpandOne;
    var s, m := p + (first + "-" + last) + rest, RangeMatch(|p|, first, last);
    ExpandOneIs(s, m, lo, hi);
    assert s[..|p|] == p && s[m.End()..] == rest;
  }

  function AllSpelled(items: seq<Item>): (r: seq<Item>)
    requires forall i :: 0 <= i < |items| ==> !items[i].Every?
    ensures items != [] ==> r != []
    ensures forall i :: 0 <= i < |r| ==> r[i].Number?
  {
    if items == [] then [] else Spelled(items[0]) + AllSpelled(items[1..])
  }

  /** Numbers print without dashes. */
  lemma {:induction false} NumbersHaveNoDash(items: seq<Item>)
    requires items != [] && forall i :: 0 <= i < |items| ==> items[i].Number?
    ensures '-' !in ItemsText(items) && '*' !in ItemsText(items)
  {
    if |items| > 1 {
      NumbersHaveNoDash(items[1..]);
    }
  }

  lemma {:induction false} RangesAreSpelled(p: string, items: seq<Item>, tail: string)
    requires items != [] && forall i :: 0 <= i < |items| ==> !items[i].Every?
    requires '-' !in p && Separated(p) && '-' !in tail && EndsDigits(tail)
    ensures Expanded(p + ItemsText(items) + tail) == p + ItemsText(AllSpelled(items)) + tail
    decreases |items|
  {
    hide ItemsText, After, Expanded;
    Unfold(p, items, tail);
    var spelled := Spelled(items[0]);
    var rest := After(items, tail);
    NumbersHaveNoDash(spelled);
    assert Expanded(p + ItemText(items[0]) + rest) == Expanded(p + ItemsText(spelled) + rest) by {
      if items[0].Range? {
        RangeIsSpelled(p, items[0].a, items[0].b, rest);
      } else {
        Single(spelled, "");
      }
    }
    if |items| == 1 {
      Single(items, tail);
      assert AllSpelled(items) == spelled;
      NoDashNoRange(p + ItemsText(spelled) + tail);
    } else {
      var q := p + ItemsText(spelled) + ",";
      RangesAreSpelled(q, items[1..], tail);
      JoinTexts(spelled, AllSpelled(items[1..]));
      MoreAfter(p, ItemsText(spelled), items, tail);
      Regroup(p, ItemsText(spelled), ",", ItemsText(AllSpelled(items[1..])), tail);
    }
  }

  lemma MoreAfter(p: string, s: string, items: seq<Item>, tail: string)
    requires |items| > 1
    ensures p + s + After(items, tail) == (p + s + ",") + ItemsText(items[1..]) + tail
  {
    Regroup(p, s, ",", ItemsText(items[1..]), tail);
  }

  // ----- steps ------------------------------------------------------------------------------

  /** The numbers on the step. */
  function Kept(items: seq<Item>, step: Option<int>): (r: seq<int>)
    requires forall i :: 0 <= i < |items| ==> items[i].Number?
    ensures forall v :: v in r <==> v >= 0 && Number(v) in items && OnStep(Some(v), step)
  {
    if items == [] then []
    else
      assert items == [items[0]] + items[1..];
      (if OnStep(Some(items[0].n), step) then [items[0].n] else []) + Kept(items[1..], step)
  }

  lemma {:induction false} PartsAreKept(items: seq<Item>, tail: string, step: Option<int>)
    requires items != [] && forall i :: 0 <= i < |items| ==> items[i].Number?
    requires ',' !in tail && EndsDigits(tail)
    ensures StepValues(Split(ItemsText(items) + tail, ','), step) == Kept(items, step)
    decreases |items|
  {
    hide ItemsText, Split, ParseInt;
    if |items| == 1 {
      LastPart(items, tail);
    } else {
      FirstPart(items, tail);
      PartsAreKept(items[1..], tail, step);
    }
  }

  lemma LastPart(items: seq<Item>, tail: string)
    requires |items| == 1 && items[0].Number? && ',' !in tail && EndsDigits(tail)
    ensures var parts := Split(ItemsText(items) + tail, ',');
      |parts| == 1 && ParseInt(parts[0]) == Some(items[0].n)
  {
    hide ParseInt, Decimal, Split;
    NoComma(ItemsText(items) + tail);
    ParseDecimal(items[0].n, tail);
  }

  lemma FirstPart(items: seq<Item>, tail: string)
    requires |items| > 1 && items[0].Number?
    ensures Split(ItemsText(items) + tail, ',') == [Decimal(items[0].n)] + Split(ItemsText(items[1..]) + tail, ',')
    ensures ParseInt(Decimal(items[0].n)) == Some(items[0].n)
  {
    hide ParseInt, Decimal, Split;
    var n := items[0].n;
    Regroup("", Decimal(n), ",", ItemsText(items[1..]), tail);
    assert ItemsText(items) + tail == Decimal(n) + [','] + (ItemsText(items[1..]) + tail);
    SplitFirst(Decimal(n), ',', ItemsText(items[1..]) + tail);
    ParseDecimal(n, "");
    assert Decimal(n) + "" == Decimal(n);
  }

  lemma NoComma(s: string)
    requires ',' !in s
    ensures Split(s, ',') == [s]
  {
  }

  function StepNumber(step: Option<nat>): Option<int> {
    match step
    case None => Some(1)
    case Some(n) => Some(n)
  }

  lemma StepIsRead(items: seq<Item>, step: Option<nat>)
    requires items != []
    ensures StepOf(ItemsText(items) + StepText(step)) == StepNumber(step)
  {
    hide ItemsText, ParseInt, Decimal;
    var text := ItemsText(items);
    match step
    case None => assert text + "" == text;
    case Some(n) =>
      var s := text + ['/'] + Decimal(n);
      assert text + ("/" + Decimal(n)) == s;
      IndexOfFirst(text, '/', Decimal(n));
      assert s[|text| + 1..] == Decimal(n) + "";
      ParseDecimal(n, "");
  }

  // ----- the meaning of a field ----------------------------------------------------------------

  /** Whether an item lists `v`, in a field with the range `lo..hi`. */
  predicate Lists(item: Item, lo: nat, hi: nat, v: int) {
    match item
    case Number(n) => v == n
    case Range(a, b) => a <= v <= b || b <= v <= a
    case Every => lo <= v <= hi
  }

  ghost predicate AnyLists(items: seq<Item>, lo: nat, hi: nat, v: int) {
    exists i :: 0 <= i < |items| && Lists(items[i], lo, hi, v)
  }

  predicate OneAsterisk(items: seq<Item>) {
    forall i, j :: 0 <= i < j < |items| ==> !(items[i].Every? && items[j].Every?)
  }

  lemma {:induction false} SpelledLists(items: seq<Item>, lo: nat, hi: nat, v: nat)
    requires forall i :: 0 <= i < |items| ==> !items[i].Every?
    ensures Number(v) in AllSpelled(items) <==> AnyLists(items, lo, hi, v)
  {
    if items != [] {
      var rest := items[1..];
      SpelledLists(rest, lo, hi, v);
      assert Number(v) in Spelled(items[0]) <==> Lists(items[0], lo, hi, v);
      if AnyLists(rest, lo, hi, v) {
        var i :| 0 <= i < |rest| && Lists(rest[i], lo, hi, v);
        assert Lists(items[i + 1], lo, hi, v);
      }
      if AnyLists(items, lo, hi, v) && !Lists(items[0], lo, hi, v) {
        var i :| 0 <= i < |items| && Lists(items[i], lo, hi, v);
        assert Lists(rest[i - 1], lo, hi, v);
      }
    }
  }

  lemma {:induction false} RangedLists(items: seq<Item>, lo: nat, hi: nat, v: int)
    requires OneAsterisk(items) && lo <= hi
    ensures forall i :: 0 <= i < |items| ==> !Ranged(items, lo, hi)[i].Every?
    ensures AnyLists(Ranged(items, lo, hi), lo, hi, v) <==> AnyLists(items, lo, hi, v)
  {
    var ranged := Ranged(items, lo, hi);
    RangedAt(items, lo, hi);
    if AnyLists(items, lo, hi, v) {
      var i :| 0 <= i < |items| && Lists(items[i], lo, hi, v);
      assert Lists(ranged[i], lo, hi, v);
    }
    if AnyLists(ranged, lo, hi, v) {
      var i :| 0 <= i < |items| && Lists(ranged[i], lo, hi, v);
      assert Lists(items[i], lo, hi, v);
    }
  }

  lemma {:induction false} RangedAt(items: seq<Item>, lo: nat, hi: nat)
    requires OneAsterisk(items)
    ensures forall i :: 0 <= i < |items| ==>
      Ranged(items, lo, hi)[i] == if items[i].Every? then Range(lo, hi) else items[i]
  {
    if items != [] {
      if !items[0].Every? {
        RangedAt(items[1..], lo, hi);
      }
    }
  }

  /** What a field with the range `lo..hi` says: listed, in range, and on the step. A step of 0 leaves nothing. */
  ghost predicate Says(f: Field, lo: nat, hi: nat, v: int) {
    && lo <= v <= hi && AnyLists(f.items, lo, hi, v)
    && (f.step.Some? ==> f.step.value != 0 && v % f.step.value == 0)
  }

  /** A field parses to the increasing list of exactly the values that it says. */
  lemma FieldMeaning(f: Field, lo: nat, hi: nat)
    requires f.items != [] && OneAsterisk(f.items) && lo <= hi
    ensures var r := FieldValues(FieldText(f), lo, hi);
      Increasing(r) && forall v :: v in r <==> Says(f, lo, hi, v)
  {
    hide ItemsText, StepText, Ranged, AllSpelled, StepOf, Split, StepValues, WithRange, Expanded, AnyLists;
    var ranged, tail := Ranged(f.items, lo, hi), StepText(f.step);
    RangedLists(f.items, lo, hi, 0);
    var spelled := AllSpelled(ranged);
    NoOddText(f.step);
    AsteriskIsRange("", f.items, tail, lo, hi);
    RangesAreSpelled("", ranged, tail);
    assert "" + ItemsText(f.items) == ItemsText(f.items);
    assert "" + ItemsText(ranged) == ItemsText(ranged);
    assert "" + ItemsText(spelled) == ItemsText(spelled);
    StepIsRead(spelled, f.step);
    PartsAreKept(spelled, tail, StepNumber(f.step));
    forall v: int | v >= 0
      ensures Number(v) in spelled <==> AnyLists(f.items, lo, hi, v)
    {
      RangedLists(f.items, lo, hi, v);
      SpelledLists(ranged, lo, hi, v);
    }
  }

  lemma NoOddText(step: Option<nat>)
    ensures '*' !in StepText(step) && '-' !in StepText(step) && ',' !in StepText(step)
  {
  }

  /** In the weekday field 7 is read as 0. */
  lemma WeekdayMeaning(f: Field)
    requires f.items != [] && OneAsterisk(f.items)
    ensures var r := Listed(SundayIsZero(FieldValues(FieldText(f), 0, 7)), 0, 6);
      && Increasing(r)
      && forall v :: v in r <==> (v <= 6 && Says(f, 0, 7, v)) || (v == 0 && Says(f, 0, 7, 7))
  {
    hide FieldValues, FieldText, Says, Listed, SundayIsZero;
    var vals := FieldValues(FieldText(f), 0, 7);
    FieldMeaning(f, 0, 7);
    SundayValues(vals);
    SaysInRange(f);
  }

  lemma SaysInRange(f: Field)
    ensures forall v :: Says(f, 0, 7, v) ==> 0 <= v <= 7
  {
  }

  lemma {:induction false} SundayValues(vals: seq<int>)
    ensures forall v :: v in SundayIsZero(vals) <==> (v != 7 && v in vals) || (v == 0 && 7 in vals)
  {
    if vals != [] {
      SundayValues(vals[1..]);
      assert vals == [vals[0]] + vals[1..];
    }
  }
}
