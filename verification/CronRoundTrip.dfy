/** Cron expressions and the models they parse to. */
module CronRoundTrip {
  import opened Wrappers
  import opened Text
  import opened CronSpec
  import opened CronExpression
  import opened CronFields

  // ----- lists -----------------------------------------------------------------------------

  /** A strictly increasing list of values in the range of its field. */
  predicate Proper(xs: seq<int>, lo: nat, hi: nat) {
    xs != [] && Increasing(xs) && forall i :: 0 <= i < |xs| ==> lo <= xs[i] <= hi
  }

  function Numbered(xs: seq<int>): (items: seq<Item>)
    requires forall i :: 0 <= i < |xs| ==> 0 <= xs[i]
    ensures |items| == |xs| && forall i :: 0 <= i < |xs| ==> items[i] == Number(xs[i])
  {
    seq(|xs|, i requires 0 <= i < |xs| => Number(xs[i]))
  }

  function ListText(xs: seq<int>): string
    requires xs != [] && forall i :: 0 <= i < |xs| ==> 0 <= xs[i]
  {
    ItemsText(Numbered(xs))
  }

  /** A list printed with commas parses to itself. */
  lemma ListRoundTrip(xs: seq<int>, lo: nat, hi: nat)
    requires Proper(xs, lo, hi)
    ensures FieldValues(ListText(xs), lo, hi) == xs
  {
    hide FieldValues, ItemsText;
    var f := Field(Numbered(xs), None);
    assert FieldText(f) == ListText(xs);
    assert lo <= xs[0] <= hi;
    FieldMeaning(f, lo, hi);
    forall v: int
      ensures v in xs <==> lo <= v <= hi && AnyLists(f.items, lo, hi, v)
    {
      if v in xs {
        var i :| 0 <= i < |xs| && xs[i] == v;
        assert Lists(f.items[i], lo, hi, v);
      }
    }
    SameValuesSameList(FieldValues(ListText(xs), lo, hi), xs);
  }

  // ----- whole expressions --------------------------------------------------------------------

  predicate ProperModel(c: CronModel) {
    && Proper(c.seconds, 0, 59)
    && Proper(c.minutes, 0, 59)
    && Proper(c.hours, 0, 23)
    && Proper(c.daysOfMonth, 1, 31)
    && Proper(c.months, 1, 12)
    && Proper(c.daysOfWeek, 0, 6)
  }

  function ModelText(c: CronModel): string
    requires ProperModel(c)
  {
    ListText(c.seconds) + " " + MinutesText(c)
  }

  /** The five fields without the seconds. */
  function MinutesText(c: CronModel): string
    requires ProperModel(c)
  {
    Spaced(ListText(c.minutes), ListText(c.hours), ListText(c.daysOfMonth), ListText(c.months), ListText(c.daysOfWeek))
  }

  function Spaced(minute: string, hour: string, date: string, month: string, weekday: string): string {
    minute + " " + (hour + " " + (date + " " + (month + " " + weekday)))
  }

  predicate Blankless(s: string) {
    s != "" && forall i :: 0 <= i < |s| ==> !IsSpace(s[i])
  }

  /** What separates the fields: one blank, or any number of them. */
  predicate Gap(s: string) {
    s != "" && forall i :: 0 <= i < |s| ==> IsSpace(s[i])
  }

  lemma {:induction false} BlankAfter(s: string, gap: string, rest: string)
    requires Gap(gap) && forall i :: 0 <= i < |s| ==> !IsSpace(s[i])
    ensures BlankAt(s + gap + rest) == |s|
  {
    var t := s + gap + rest;
    if s == "" {
      assert t[0] == gap[0];
    } else {
      assert t[0] == s[0] && t[1..] == s[1..] + gap + rest;
      BlankAfter(s[1..], gap, rest);
    }
  }

  lemma {:induction false} NoBlank(s: string)
    requires forall i :: 0 <= i < |s| ==> !IsSpace(s[i])
    ensures BlankAt(s) == |s|
  {
    if s != "" {
      NoBlank(s[1..]);
    }
  }

  lemma WordsOf(s: string, gap: string, rest: string)
    requires Gap(gap) && (forall i :: 0 <= i < |s| ==> !IsSpace(s[i])) && (rest != "" ==> !IsSpace(rest[0]))
    ensures Words(s + gap + rest) == [s] + Words(rest)
  {
    hide BlankAt, AfterBlanks, IsSpace;
    BlankAfter(s, gap, rest);
    AllBlanks(gap, rest);
    Halves(s, gap, rest);
  }

  lemma Halves(s: string, gap: string, rest: string)
    ensures var t := s + gap + rest; t[..|s|] == s && t[|s|..] == gap + rest
  {
  }

  lemma {:induction false} AllBlanks(gap: string, rest: string)
    requires (forall i :: 0 <= i < |gap| ==> IsSpace(gap[i])) && (rest != "" ==> !IsSpace(rest[0]))
    ensures AfterBlanks(gap + rest) == rest
  {
    var t := gap + rest;
    if gap == "" {
      assert t == rest;
    } else {
      assert t[0] == gap[0] && t[1..] == gap[1..] + rest;
      AllBlanks(gap[1..], rest);
    }
  }

  function Joined(words: seq<string>, gaps: seq<string>): string
    requires words != [] && |gaps| == |words| - 1
  {
    if |words| == 1 then words[0] else words[0] + gaps[0] + Joined(words[1..], gaps[1..])
  }

  /** No blank in any of them, and only the first and the last may be empty. */
  predicate AreWords(words: seq<string>) {
    && words != []
    && (forall i :: 0 <= i < |words| ==> forall j :: 0 <= j < |words[i]| ==> !IsSpace(words[i][j]))
    && (forall i :: 0 < i < |words| - 1 ==> words[i] != "")
  }

  /** Words come apart wherever blanks join them, however many. */
  lemma {:induction false} WordsOfJoined(words: seq<string>, gaps: seq<string>)
    requires AreWords(words) && |gaps| == |words| - 1 && forall i :: 0 <= i < |gaps| ==> Gap(gaps[i])
    ensures Words(Joined(words, gaps)) == words
  {
    if |words| == 1 {
      NoBlank(words[0]);
    } else {
      var rest := Joined(words[1..], gaps[1..]);
      assert rest != "" ==> !IsSpace(rest[0]) by {
        if |words| == 2 {
          assert rest == words[1];
        } else {
          assert rest == words[1] + gaps[1] + Joined(words[1..][1..], gaps[1..][1..]);
          assert rest[0] == words[1][0];
        }
      }
      WordsOfJoined(words[1..], gaps[1..]);
      WordsOf(words[0], gaps[0], rest);
      assert [words[0]] + words[1..] == words;
    }
  }

  lemma LastWord(s: string)
    requires Blankless(s)
    ensures Words(s) == [s]
  {
    NoBlank(s);
  }

  lemma ListHasNoBlank(xs: seq<int>)
    requires xs != [] && forall i :: 0 <= i < |xs| ==> 0 <= xs[i]
    ensures Blankless(ListText(xs))
  {
    var s := ListText(xs);
    forall i | 0 <= i < |s| ensures !IsSpace(s[i]) {
      assert s[i] in s;
    }
  }

  lemma SpacedWords(minute: string, hour: string, date: string, month: string, weekday: string)
    requires Blankless(minute) && Blankless(hour) && Blankless(date) && Blankless(month) && Blankless(weekday)
    ensures Words(Spaced(minute, hour, date, month, weekday)) == [minute, hour, date, month, weekday]
    ensures Spaced(minute, hour, date, month, weekday) != ""
    ensures !IsSpace(Spaced(minute, hour, date, month, weekday)[0])
  {
    hide Words;
    LastWord(weekday);
    WordsOf(month, " ", weekday);
    WordsOf(date, " ", month + " " + weekday);
    WordsOf(hour, " ", date + " " + (month + " " + weekday));
    WordsOf(minute, " ", hour + " " + (date + " " + (month + " " + weekday)));
  }

  lemma FiveWords(c: CronModel)
    requires ProperModel(c)
    ensures Words(MinutesText(c)) ==
      [ListText(c.minutes), ListText(c.hours), ListText(c.daysOfMonth), ListText(c.months), ListText(c.daysOfWeek)]
    ensures MinutesText(c) != "" && !IsSpace(MinutesText(c)[0])
  {
    hide ListText, Words, Spaced;
    ListHasNoBlank(c.minutes);
    ListHasNoBlank(c.hours);
    ListHasNoBlank(c.daysOfMonth);
    ListHasNoBlank(c.months);
    ListHasNoBlank(c.daysOfWeek);
    SpacedWords(ListText(c.minutes), ListText(c.hours), ListText(c.daysOfMonth), ListText(c.months),
                ListText(c.daysOfWeek));
  }

  lemma {:induction false} NoSevens(vals: seq<int>)
    requires forall i :: 0 <= i < |vals| ==> vals[i] != 7
    ensures SundayIsZero(vals) == vals
  {
    if vals != [] {
      NoSevens(vals[1..]);
    }
  }

  lemma WeekdaysRoundTrip(xs: seq<int>)
    requires Proper(xs, 0, 6)
    ensures Listed(SundayIsZero(FieldValues(ListText(xs), 0, 7)), 0, 6) == xs
  {
    hide FieldValues, ListText;
    ListRoundTrip(xs, 0, 7);
    NoSevens(xs);
    SameValuesSameList(Listed(xs, 0, 6), xs);
  }

  /** A model of strictly increasing lists, printed as six fields, parses to itself. */
  lemma ModelRoundTrip(c: CronModel)
    requires ProperModel(c)
    ensures ParsedModel(ModelText(c)) == Some(c)
  {
    hide FieldValues, ListText, Words, SundayIsZero, Listed, MinutesText;
    FiveWords(c);
    ListHasNoBlank(c.seconds);
    WordsOf(ListText(c.seconds), " ", MinutesText(c));
    ListRoundTrip(c.seconds, 0, 59);
    ListRoundTrip(c.minutes, 0, 59);
    ListRoundTrip(c.hours, 0, 23);
    ListRoundTrip(c.daysOfMonth, 1, 31);
    ListRoundTrip(c.months, 1, 12);
    WeekdaysRoundTrip(c.daysOfWeek);
  }

  /** Five fields fire at every second of the minutes they name. */
  lemma FiveFieldsMeanEverySecond(c: CronModel)
    requires ProperModel(c)
    ensures ParsedModel(MinutesText(c)) == Some(c.(seconds := seq(60, i => i)))
  {
    hide FieldValues, ListText, Words, SundayIsZero, Listed, MinutesText, ItemsText, StepText;
    FiveWords(c);
    ListRoundTrip(c.minutes, 0, 59);
    ListRoundTrip(c.hours, 0, 23);
    ListRoundTrip(c.daysOfMonth, 1, 31);
    ListRoundTrip(c.months, 1, 12);
    WeekdaysRoundTrip(c.daysOfWeek);
    AsteriskIsEverySecond();
  }

  lemma AsteriskIsEverySecond()
    ensures FieldValues("*", 0, 59) == seq(60, i => i)
  {
    hide FieldValues;
    var f := Field([Every], None);
    assert FieldText(f) == "*";
    FieldMeaning(f, 0, 59);
    var all := seq(60, i => i);
    forall v: int ensures v in all <==> 0 <= v <= 59 && AnyLists(f.items, 0, 59, v) {
      assert Lists(f.items[0], 0, 59, v) <==> 0 <= v <= 59;
      if 0 <= v <= 59 {
        assert all[v] == v;
      }
    }
    SameValuesSameList(FieldValues("*", 0, 59), all);
  }

  /**
   Whatever an expression says, its lists are in order and in range, so that it can be searched; it is well
   formed unless one of the lists that a carry resets is empty.
   */
  lemma ParsedIsWellFormedIff(text: string)
    requires ParsedModel(text).Some?
    ensures var c := ParsedModel(text).value;
      && c.InOrder()
      && (c.WellFormed() <==> c.seconds != [] && c.minutes != [] && c.hours != [] && c.months != [])
  {
    hide Words, SundayIsZero, StepValues, Split, StepOf, Expanded, WithRange, Listed, FieldValues, OrderedIn;
    var parts := SixFields(Words(text));
    FieldInOrder(parts[0], 0, 59);
    FieldInOrder(parts[1], 0, 59);
    FieldInOrder(parts[2], 0, 23);
    FieldInOrder(parts[3], 1, 31);
    FieldInOrder(parts[4], 1, 12);
    ListedInOrder(SundayIsZero(FieldValues(parts[5], 0, 7)), 0, 6);
  }

  lemma FieldInOrder(expr: string, lo: nat, hi: nat)
    ensures OrderedIn(FieldValues(expr, lo, hi), lo, hi)
  {
    hide StepValues, Split, StepOf, Expanded, WithRange;
    var expanded := Expanded(WithRange(expr, lo, hi));
    ListedInOrder(StepValues(Split(expanded, ','), StepOf(expanded)), lo, hi);
  }

  lemma ListedInOrder(vals: seq<int>, lo: int, hi: int)
    ensures OrderedIn(Listed(vals, lo, hi), lo, hi)
  {
    hide Listed;
    var s := Listed(vals, lo, hi);
    assert forall i :: 0 <= i < |s| ==> s[i] in s;
  }
}
