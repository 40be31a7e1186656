/** Cron expressions as they are written, and what `next_cron_at` answers for them. */
module CronText {
  import opened Wrappers
  import opened Text
  import opened Calendar
  import opened Cron

  /** The five fields in the order they are written. */
  datatype Fields = Fields(minutes: seq<Item>, hours: seq<Item>, days: seq<Item>, months: seq<Item>, weekdays: seq<Item>)

  ghost predicate FieldInOrder(items: seq<Item>, low: int, high: int) {
    items != [] && AllAllowed(items, low, high)
  }

  ghost predicate InOrder(f: Fields) {
    && FieldInOrder(f.minutes, 0, 59) && FieldInOrder(f.hours, 0, 23) && FieldInOrder(f.days, 1, 31)
    && FieldInOrder(f.months, 1, 12) && FieldInOrder(f.weekdays, 0, 6)
  }

  function FieldTexts(f: Fields): seq<string> {
    [FieldText(f.minutes), FieldText(f.hours), FieldText(f.days), FieldText(f.months), FieldText(f.weekdays)]
  }

  /** Blanks before, between and after five words. */
  ghost predicate Blanks(blanks: seq<string>) {
    |blanks| == 6 && forall i :: 0 <= i < 6 ==> AllSpace(blanks[i]) && (0 < i < 5 ==> blanks[i] != [])
  }

  function Expression(f: Fields, blanks: seq<string>): string
    requires |blanks| == 6
  {
    Spaced(FieldTexts(f), blanks)
  }

  /** Sunday is 0. */
  function CronWeekday(t: Civil): int
    requires Valid(t)
  {
    (Weekday(t.year, t.month, t.day) + 1) % 7
  }

  /** A field that is literally `*` leaves the day to the other one; with neither `*`, either list may hold the day. */
  ghost predicate DayMatches(f: Fields, t: Civil)
    requires InOrder(f) && Valid(t)
  {
    var listed, weekday := Listed(f.days, 1, 31, t.day), Listed(f.weekdays, 0, 6, CronWeekday(t));
    || (f.days == [ANY] && f.weekdays == [ANY])
    || (f.days == [ANY] && f.weekdays != [ANY] && weekday)
    || (f.days != [ANY] && f.weekdays == [ANY] && listed)
    || (f.days != [ANY] && f.weekdays != [ANY] && (listed || weekday))
  }

  ghost predicate FieldsMatch(f: Fields, t: Civil)
    requires InOrder(f) && Valid(t)
  {
    && Listed(f.minutes, 0, 59, t.minute) && Listed(f.hours, 0, 23, t.hour) && Listed(f.months, 1, 12, t.month)
    && DayMatches(f, t)
  }

  // ----- Words -----

  lemma {:induction false} JoinIsWord(parts: seq<string>)
    requires parts != [] && forall i :: 0 <= i < |parts| ==> IsWord(parts[i])
    ensures IsWord(Join(parts, ','))
  {
    if |parts| > 1 {
      JoinIsWord(parts[1..]);
    }
  }

  lemma FieldIsWord(items: seq<Item>)
    requires items != []
    ensures IsWord(FieldText(items))
  {
    hide ItemText, Join, IsWord;
    forall i | 0 <= i < |items|
      ensures IsWord(ItemTexts(items)[i])
    {
      ItemNoComma(items[i]);
    }
    JoinIsWord(ItemTexts(items));
  }

  lemma ItemIsStar(item: Item)
    ensures ItemText(item) == "*" <==> item == ANY
  {
    hide Decimal;
    BaseChars(item.base);
    if item.step.Some? {
      assert |ItemText(item)| >= 2;
    }
  }

  lemma FieldIsStar(items: seq<Item>)
    requires items != []
    ensures FieldText(items) == "*" <==> items == [ANY]
  {
    hide ItemText;
    var texts := ItemTexts(items);
    ItemIsStar(items[0]);
    if |items| == 1 {
      assert items == [items[0]];
    } else {
      ItemNoComma(items[0]);
      assert FieldText(items)[|texts[0]|] == ',';
      assert |texts[0]| > 0 ==> |FieldText(items)| >= 2;
    }
  }

  // ----- Whole expressions -----

  ghost predicate Holds(c: set<int>, items: seq<Item>, low: int, high: int) {
    FieldInOrder(items, low, high) && forall v :: v in c <==> low <= v <= high && Listed(items, low, high, v)
  }

  /** The parsed expression has the listed values, field by field. */
  ghost predicate Means(c: Cron, f: Fields) {
    && Holds(c.minute, f.minutes, 0, 59) && Holds(c.hour, f.hours, 0, 23) && Holds(c.day, f.days, 1, 31)
    && Holds(c.month, f.months, 1, 12) && Holds(c.weekday, f.weekdays, 0, 6)
    && (c.anyDay <==> f.days == [ANY]) && (c.anyWeekday <==> f.weekdays == [ANY])
  }

  lemma FieldMeans(items: seq<Item>, low: int, high: int)
    requires low <= high && FieldInOrder(items, low, high)
    ensures FieldValues(FieldText(items), low, high).Success?
    ensures Holds(FieldValues(FieldText(items), low, high).value, items, low, high)
  {
    hide FieldText, FieldValues, Listed;
    WrittenFieldParses(items, low, high);
  }

  lemma ExpressionWords(f: Fields, blanks: seq<string>)
    requires InOrder(f) && Blanks(blanks)
    ensures Words(Expression(f, blanks)) == FieldTexts(f)
  {
    hide Words, Spaced, IsWord, FieldText, AllAllowed;
    FieldIsWord(f.minutes);
    FieldIsWord(f.hours);
    FieldIsWord(f.days);
    FieldIsWord(f.months);
    FieldIsWord(f.weekdays);
    var words := FieldTexts(f);
    assert forall i :: 0 <= i < |words| ==> IsWord(words[i]);
    SpacedWords(words, blanks);
  }

  lemma ExpressionParses(f: Fields, blanks: seq<string>)
    requires InOrder(f) && Blanks(blanks)
    ensures ParseCron(Expression(f, blanks)).Success? && Means(ParseCron(Expression(f, blanks)).value, f)
  {
    hide Words, Spaced, FieldText, FieldValues, Holds, AllAllowed, Blanks, Expression;
    ExpressionWords(f, blanks);
    FieldMeans(f.minutes, 0, 59);
    FieldMeans(f.hours, 0, 23);
    FieldMeans(f.days, 1, 31);
    FieldMeans(f.months, 1, 12);
    FieldMeans(f.weekdays, 0, 6);
    FieldIsStar(f.days);
    FieldIsStar(f.weekdays);
  }

  lemma WeekdayInRange(t: Civil)
    requires Valid(t)
    ensures 0 <= CronWeekday(t) <= 6 && 1 <= t.day <= 31
  {
  }

  lemma MeansMatches(c: Cron, f: Fields, t: Civil)
    requires InOrder(f) && Means(c, f) && Valid(t)
    ensures Matches(c, t) <==> FieldsMatch(f, t)
  {
    hide Listed, Weekday, AllAllowed;
    WeekdayInRange(t);
  }

  /**
   * What `next_cron_at` answers for an expression written from five lists of parts, however spaced: the
   * least later minute that the minute, hour and month lists hold and whose day follows the day rule, or
   * an error exactly when the horizon holds no such minute.
   */
  lemma WrittenExpression(f: Fields, blanks: seq<string>, after: Civil, r: Result<Civil, CronError>)
    requires InOrder(f) && Blanks(blanks) && Valid(after) && IsNext(Expression(f, blanks), after, r)
    ensures r.Success? ==>
              && Valid(r.value) && FieldsMatch(f, r.value) && Minutes(after) < Minutes(r.value) <= Minutes(after) + HORIZON
              && forall t :: Valid(t) && Minutes(after) < Minutes(t) < Minutes(r.value) ==> !FieldsMatch(f, t)
    ensures r.Failure? ==>
              && r.error == NoMatchInHorizon
              && forall t :: Valid(t) && Minutes(after) < Minutes(t) <= Minutes(after) + HORIZON ==> !FieldsMatch(f, t)
  {
    hide ParseCron, Matches, FieldsMatch, Minutes, Hopeless, Precedes, Tick, Expression, InOrder, Means, WellFormed;
    ExpressionParses(f, blanks);
    var c := ParseCron(Expression(f, blanks)).value;
    ParsedIsWellFormed(Expression(f, blanks));
    TickIsOneMinute(after);
    forall t | Valid(t)
      ensures (Matches(c, t) <==> FieldsMatch(f, t)) && (Precedes(after, t) <==> Minutes(after) < Minutes(t))
      ensures InWindow(Tick(after), t) && Matches(c, t) ==> !Hopeless(c, Tick(after))
      ensures r.Success? && Valid(r.value) ==> (Precedes(t, r.value) <==> Minutes(t) < Minutes(r.value))
    {
      MeansMatches(c, f, t);
      PrecedesIffFewerMinutes(after, t);
      if InWindow(Tick(after), t) && Matches(c, t) {
        MatchingIsNotHopeless(c, Tick(after), t);
      }
      if r.Success? && Valid(r.value) {
        PrecedesIffFewerMinutes(t, r.value);
      }
    }
    if !Hopeless(c, Tick(after)) {
      var t := HorizonSuffices(c, Tick(after));
      assert !Precedes(t, r.value);
    }
  }

  /** Fewer or more than five words are an error. */
  lemma OtherWordCount(words: seq<string>, blanks: seq<string>, after: Civil, r: Result<Civil, CronError>)
    requires Separates(words, blanks) && |words| != 5 && Valid(after) && IsNext(Spaced(words, blanks), after, r)
    ensures r == Failure(WrongFieldCount)
  {
    hide Words, Spaced, Separates;
    SpacedWords(words, blanks);
  }
}
