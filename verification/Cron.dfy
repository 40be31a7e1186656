/** Cron expressions and the minute-by-minute search for the next match, in UTC. */
module Cron {
  import opened Wrappers
  import opened Text
  import opened Calendar

  datatype CronError = WrongFieldCount | EmptyPart | BadStep | StepNotPositive | NotANumber | OutOfRange | NoMatchInHorizon

  // ----- One field -----

  /** One comma-separated part of a field: `start`, `start + step`, ... up to `end`. */
  datatype Term = Term(start: int, end: int, step: int)

  predicate Covers(t: Term, v: int) {
    t.start <= v <= t.end && t.step > 0 && (v - t.start) % t.step == 0
  }

  function ParseBase(base: string, step: int, low: int, high: int): Result<Term, CronError> {
    if base == "*" then Success(Term(low, high, step))
    else
      var dash := IndexOf(base, '-');
      var first := ParseInt(base[..dash]);
      var last := if dash < |base| then ParseInt(base[dash + 1..]) else first;
      if first.None? || last.None? then Failure(NotANumber) else Success(Term(first.value, last.value, step))
  }

  function ParseTerm(raw: string, low: int, high: int): (r: Result<Term, CronError>)
    ensures r.Success? ==> r.value.step > 0 && low <= r.value.start <= r.value.end <= high
  {
    var part := Strip(raw);
    var slash := IndexOf(part, '/');
    var step := if slash < |part| then ParseInt(part[slash + 1..]) else Some(1);
    if part == [] then Failure(EmptyPart)
    else if step.None? then Failure(BadStep)
    else if step.value <= 0 then Failure(StepNotPositive)
    else
      var term :- ParseBase(part[..slash], step.value, low, high);
      if low <= term.start <= term.end <= high then Success(term) else Failure(OutOfRange)
  }

  /** All parts, or the error of the first that has one. */
  function ParseTerms(parts: seq<string>, low: int, high: int): (r: Result<seq<Term>, CronError>)
    ensures r.Success? ==> |r.value| == |parts|
  {
    if parts == [] then Success([])
    else
      var front :- ParseTerms(parts[..|parts| - 1], low, high);
      var last :- ParseTerm(parts[|parts| - 1], low, high);
      Success(front + [last])
  }

  lemma {:induction false} TermsAreParsed(parts: seq<string>, low: int, high: int, i: nat)
    requires ParseTerms(parts, low, high).Success? && i < |parts|
    ensures ParseTerm(parts[i], low, high) == Success(ParseTerms(parts, low, high).value[i])
  {
    hide ParseTerm;
    if i < |parts| - 1 {
      TermsAreParsed(parts[..|parts| - 1], low, high, i);
    }
  }

  predicate InSomeTerm(terms: seq<Term>, v: int) {
    exists i :: 0 <= i < |terms| && Covers(terms[i], v)
  }

  function FieldValues(spec: string, low: int, high: int): (r: Result<set<int>, CronError>)
    ensures r.Success? ==> (exists v :: v in r.value) && forall v :: v in r.value ==> low <= v <= high
  {
    var terms :- ParseTerms(Split(spec, ','), low, high);
    var values := set v | low <= v <= high && InSomeTerm(terms, v);
    TermsAreParsed(Split(spec, ','), low, high, 0);
    assert terms[0].start in values by { assert Covers(terms[0], terms[0].start); }
    Success(values)
  }

  /** `_field`: the values the comma-separated terms cover, or the first part's error. */
  method Field(spec: string, low: int, high: int) returns (r: Result<set<int>, CronError>)
    ensures r == FieldValues(spec, low, high)
  {
    var parts := Split(spec, ',');
    var values: set<int> := {};
    ghost var terms: seq<Term> := [];
    var i := 0;
    while i < |parts|
      invariant 0 <= i <= |parts|
      invariant ParseTerms(parts[..i], low, high) == Success(terms)
      invariant forall v :: v in values <==> low <= v <= high && InSomeTerm(terms, v)
    {
      var term := ParseTerm(parts[i], low, high);
      TermsStep(parts, i, low, high);
      if term.Failure? {
        return Failure(term.error);
      }
      values := AddTerm(values, terms, term.value, low, high);
      terms := terms + [term.value];
      i := i + 1;
    }
    assert parts[..i] == parts;
    r := Success(values);
    assert values == set v | low <= v <= high && InSomeTerm(terms, v);
  }

  lemma {:induction false} TermsStep(parts: seq<string>, i: nat, low: int, high: int)
    requires i < |parts| && ParseTerms(parts[..i], low, high).Success?
    ensures var term := ParseTerm(parts[i], low, high);
            if term.Success? then
              ParseTerms(parts[..i + 1], low, high) == Success(ParseTerms(parts[..i], low, high).value + [term.value])
            else ParseTerms(parts, low, high) == Failure(term.error)
  {
    assert parts[..i + 1][..i] == parts[..i];
    if ParseTerm(parts[i], low, high).Failure? {
      FirstErrorStays(parts, i + 1, low, high);
    }
  }

  lemma {:induction false} FirstErrorStays(parts: seq<string>, n: nat, low: int, high: int)
    requires n <= |parts| && ParseTerms(parts[..n], low, high).Failure?
    ensures ParseTerms(parts, low, high) == ParseTerms(parts[..n], low, high)
    decreases |parts|
  {
    if n == |parts| {
      assert parts[..n] == parts;
    } else {
      var front := parts[..|parts| - 1];
      assert front[..n] == parts[..n];
      FirstErrorStays(front, n, low, high);
    }
  }

  /** `values.update(range(start, end + 1, step))`. */
  method AddTerm(before: set<int>, ghost terms: seq<Term>, term: Term, low: int, high: int) returns (values: set<int>)
    requires term.step > 0 && low <= term.start <= term.end <= high
    requires forall v :: v in before <==> low <= v <= high && InSomeTerm(terms, v)
    ensures forall v :: v in values <==> low <= v <= high && InSomeTerm(terms + [term], v)
  {
    values := before;
    var v := term.start;
    while v <= term.end
      invariant term.start <= v && (v - term.start) % term.step == 0
      invariant forall u :: u in values <==> u in before || (Covers(term, u) && u < v)
      decreases term.end - v
    {
      NextCovered(term, v);
      values := values + {v};
      v := v + term.step;
    }
    forall u
      ensures InSomeTerm(terms + [term], u) <==> InSomeTerm(terms, u) || Covers(term, u)
    {
      assert (terms + [term])[|terms|] == term;
      if InSomeTerm(terms, u) {
        var i :| 0 <= i < |terms| && Covers(terms[i], u);
        assert (terms + [term])[i] == terms[i];
      }
    }
  }

  lemma NextCovered(term: Term, v: int)
    requires term.step > 0 && term.start <= v && (v - term.start) % term.step == 0
    ensures (v + term.step - term.start) % term.step == 0
    ensures forall u :: v < u < v + term.step ==> !Covers(term, u)
  {
    var q := (v - term.start) / term.step;
    assert v + term.step - term.start == (q + 1) * term.step;
    QuotientIs(v + term.step - term.start, term.step, q + 1);
    forall u | v < u < v + term.step
      ensures !Covers(term, u)
    {
      QuotientIs(u - term.start, term.step, q);
    }
  }

  // ----- Writing a field -----

  /** The forms of a part: `*`, `v` or `first-last`, and any of them with a step. */
  datatype Base = Star | One(v: nat) | Range(first: nat, last: nat)
  datatype Item = Item(base: Base, step: Option<nat>)

  const ANY := Item(Star, None)

  /** The part is in order for a field with these limits. */
  predicate Allowed(item: Item, low: int, high: int) {
    && (match item.base
        case Star => true
        case One(v) => low <= v <= high
        case Range(first, last) => low <= first <= last <= high)
    && (item.step.Some? ==> item.step.value > 0)
  }

  /** `v` is one of the values the part lists: every `step`-th from the first one on. */
  predicate Lists(item: Item, low: int, high: int, v: int)
    requires Allowed(item, low, high)
  {
    var step := if item.step.Some? then item.step.value else 1;
    match item.base
    case Star => low <= v <= high && (v - low) % step == 0
    case One(n) => v == n
    case Range(first, last) => first <= v <= last && (v - first) % step == 0
  }

  function BaseText(b: Base): string {
    match b
    case Star => "*"
    case One(v) => Decimal(v)
    case Range(first, last) => Decimal(first) + "-" + Decimal(last)
  }

  function ItemText(item: Item): string {
    if item.step.Some? then BaseText(item.base) + "/" + Decimal(item.step.value) else BaseText(item.base)
  }

  function ItemTexts(items: seq<Item>): (texts: seq<string>)
    ensures |texts| == |items|
  {
    seq(|items|, i requires 0 <= i < |items| => ItemText(items[i]))
  }

  function FieldText(items: seq<Item>): string {
    Join(ItemTexts(items), ',')
  }

  /** The term a part means. */
  function TermOf(item: Item, low: int, high: int): Term {
    var step := if item.step.Some? then item.step.value else 1;
    match item.base
    case Star => Term(low, high, step)
    case One(v) => Term(v, v, step)
    case Range(first, last) => Term(first, last, step)
  }

  predicate PartChar(c: char) {
    IsDigit(c) || c == '*' || c == '-'
  }

  lemma {:induction false} IndexOfNone(s: string, c: char)
    requires c !in s
    ensures IndexOf(s, c) == |s|
  {
    if s != [] {
      IndexOfNone(s[1..], c);
    }
  }

  lemma BaseChars(b: Base)
    ensures var s := BaseText(b); s != [] && (forall i :: 0 <= i < |s| ==> PartChar(s[i])) && (s[|s| - 1] == '*' || IsDigit(s[|s| - 1]))
    ensures BaseText(b) == "*" <==> b == Star
  {
    hide Decimal;
    if b.One? {
      assert IsDigit(Decimal(b.v)[0]) && BaseText(b)[0] == Decimal(b.v)[0];
    } else if b.Range? {
      assert IsDigit(Decimal(b.first)[0]) && BaseText(b)[0] == Decimal(b.first)[0];
    }
  }

  lemma BaseParses(b: Base, step: int, low: int, high: int)
    ensures ParseBase(BaseText(b), step, low, high) == Success(TermOf(Item(b, None), low, high).(step := step))
  {
    hide ParseInt, Decimal, IndexOf;
    BaseChars(b);
    match b {
      case Star =>
      case One(v) =>
        IndexOfNone(Decimal(v), '-');
        DecimalParses(v);
        assert Decimal(v)[..|Decimal(v)|] == Decimal(v);
      case Range(first, last) =>
        IndexOfFirst(Decimal(first), '-', Decimal(last));
        DecimalParses(first);
        DecimalParses(last);
    }
  }

  lemma ItemParses(item: Item, low: int, high: int)
    requires low <= high && Allowed(item, low, high)
    ensures ParseTerm(ItemText(item), low, high) == Success(TermOf(item, low, high))
  {
    hide ParseInt, Decimal, IndexOf, Strip, ParseBase, BaseText;
    var base, text := BaseText(item.base), ItemText(item);
    BaseChars(item.base);
    assert Strip(text) == text by {
      EndsStrip(text);
    }
    if item.step.Some? {
      var step := Decimal(item.step.value);
      IndexOfFirst(base, '/', step);
      DecimalParses(item.step.value);
      BaseParses(item.base, item.step.value, low, high);
    } else {
      IndexOfNone(base, '/');
      assert base[..|base|] == base;
      BaseParses(item.base, 1, low, high);
    }
  }

  lemma EndsStrip(s: string)
    requires s != [] && !IsSpace(s[0]) && !IsSpace(s[|s| - 1])
    ensures Strip(s) == s
  {
  }

  lemma ItemCovers(item: Item, low: int, high: int, v: int)
    requires low <= high && Allowed(item, low, high) && low <= v <= high
    ensures Covers(TermOf(item, low, high), v) <==> Lists(item, low, high, v)
  {
    if item.base.One? && v == item.base.v {
      assert 0 % TermOf(item, low, high).step == 0;
    }
  }

  ghost predicate AllAllowed(items: seq<Item>, low: int, high: int) {
    forall i :: 0 <= i < |items| ==> Allowed(items[i], low, high)
  }

  predicate Listed(items: seq<Item>, low: int, high: int, v: int)
    requires AllAllowed(items, low, high)
  {
    exists i :: 0 <= i < |items| && Lists(items[i], low, high, v)
  }

  lemma {:induction false} ItemsParse(items: seq<Item>, low: int, high: int) returns (terms: seq<Term>)
    requires low <= high && AllAllowed(items, low, high)
    ensures ParseTerms(ItemTexts(items), low, high) == Success(terms) && |terms| == |items|
    ensures forall i :: 0 <= i < |items| ==> terms[i] == TermOf(items[i], low, high)
  {
    hide ParseTerm, ItemText, Allowed, TermOf;
    if items == [] {
      terms := [];
    } else {
      var last := |items| - 1;
      var front := ItemsParse(items[..last], low, high);
      assert ItemTexts(items)[..last] == ItemTexts(items[..last]);
      assert Allowed(items[last], low, high);
      ItemParses(items[last], low, high);
      terms := front + [TermOf(items[last], low, high)];
    }
  }

  lemma ItemNoComma(item: Item)
    ensures ItemText(item) != [] && ',' !in ItemText(item) && IsWord(ItemText(item))
  {
    hide Decimal;
    BaseChars(item.base);
    assert forall c :: PartChar(c) || c == '/' ==> !IsSpace(c);
  }

  /** Every list of parts, written in any of their forms, is read as a field that allows exactly the values listed. */
  lemma WrittenFieldParses(items: seq<Item>, low: int, high: int)
    requires items != [] && low <= high && AllAllowed(items, low, high)
    ensures FieldValues(FieldText(items), low, high).Success?
    ensures forall v :: v in FieldValues(FieldText(items), low, high).value <==> low <= v <= high && Listed(items, low, high, v)
  {
    hide ItemText, ParseTerm, Join, Covers, Allowed, TermOf, Split;
    forall i | 0 <= i < |items|
      ensures ',' !in ItemTexts(items)[i]
    {
      ItemNoComma(items[i]);
    }
    SplitJoin(ItemTexts(items), ',');
    var terms := ItemsParse(items, low, high);
    forall v | low <= v <= high
      ensures InSomeTerm(terms, v) <==> Listed(items, low, high, v)
    {
      SameValues(items, terms, low, high, v);
    }
  }

  lemma SameValues(items: seq<Item>, terms: seq<Term>, low: int, high: int, v: int)
    requires low <= v <= high && AllAllowed(items, low, high) && |terms| == |items|
    requires forall i :: 0 <= i < |items| ==> terms[i] == TermOf(items[i], low, high)
    ensures InSomeTerm(terms, v) <==> Listed(items, low, high, v)
  {
    hide TermOf, Covers, Allowed, Lists;
    forall i | 0 <= i < |items|
      ensures Allowed(items[i], low, high) && (Covers(terms[i], v) <==> Lists(items[i], low, high, v))
    {
      ItemCovers(items[i], low, high, v);
    }
    if Listed(items, low, high, v) {
      var i :| 0 <= i < |items| && Lists(items[i], low, high, v);
      assert Covers(terms[i], v);
    }
  }

  // ----- Expressions -----

  /** A parsed expression; the flags say whether the day-of-month and weekday fields are literally `*`. */
  datatype Cron = Cron(
    minute: set<int>, hour: set<int>, day: set<int>, month: set<int>, weekday: set<int>, anyDay: bool, anyWeekday: bool)

  function ParseCron(expr: string): Result<Cron, CronError> {
    var parts := Words(expr);
    if |parts| != 5 then Failure(WrongFieldCount)
    else
      var minute :- FieldValues(parts[0], 0, 59);
      var hour :- FieldValues(parts[1], 0, 23);
      var day :- FieldValues(parts[2], 1, 31);
      var month :- FieldValues(parts[3], 1, 12);
      var weekday :- FieldValues(parts[4], 0, 6);
      Success(Cron(minute, hour, day, month, weekday, parts[2] == "*", parts[4] == "*"))
  }

  predicate Within(values: set<int>, low: int, high: int) {
    (exists v :: v in values) && forall v :: v in values ==> low <= v <= high
  }

  ghost predicate WellFormed(c: Cron) {
    && Within(c.minute, 0, 59) && Within(c.hour, 0, 23) && Within(c.day, 1, 31)
    && Within(c.month, 1, 12) && Within(c.weekday, 0, 6)
    && (c.anyDay ==> forall d :: 1 <= d <= 31 ==> d in c.day)
    && (c.anyWeekday ==> forall w :: 0 <= w <= 6 ==> w in c.weekday)
  }

  lemma StarCoversAll(low: int, high: int)
    requires low <= high
    ensures FieldValues("*", low, high).Success?
    ensures forall v :: low <= v <= high ==> v in FieldValues("*", low, high).value
  {
    assert Strip("*") == "*";
    assert IndexOf("*", '/') == 1;
    assert "*"[..1] == "*";
    var term := Term(low, high, 1);
    assert ParseTerm("*", low, high) == Success(term);
    SplitWhole("*", ',');
    var parts := ["*"];
    assert parts[..0] == [] && parts[..1] == parts;
    TermsStep(parts, 0, low, high);
    assert ParseTerms([], low, high).value + [term] == [term];
    assert ParseTerms(parts, low, high) == Success([term]);
    forall v | low <= v <= high
      ensures InSomeTerm([term], v)
    {
      assert Covers([term][0], v);
    }
  }

  lemma ParsedIsWellFormed(expr: string)
    requires ParseCron(expr).Success?
    ensures WellFormed(ParseCron(expr).value)
  {
    hide FieldValues, Words;
    StarCoversAll(1, 31);
    StarCoversAll(0, 6);
  }

  // ----- The rule -----

  /** The month must match; with both day fields restricted either may match, and a `*` field defers to the other. */
  predicate Matches(c: Cron, t: Civil)
    requires Valid(t)
  {
    var weekdayMatch := (Weekday(t.year, t.month, t.day) + 1) % 7 in c.weekday;
    var dayMatch := t.day in c.day;
    var calendarMatch :=
      if c.anyDay && c.anyWeekday then true
      else if c.anyDay then weekdayMatch
      else if c.anyWeekday then dayMatch
      else dayMatch || weekdayMatch;
    t.minute in c.minute && t.hour in c.hour && t.month in c.month && calendarMatch
  }

  /** How many minutes the search looks at. */
  const HORIZON: int := 366 * 24 * 60 * 2

  /** A year that is not a leap year. */
  const COMMON_YEAR := 1

  ghost predicate InWindow(start: Civil, t: Civil) {
    Valid(start) && Valid(t) && Minutes(start) <= Minutes(t) < Minutes(start) + HORIZON
  }

  /** Some allowed minute of a 29 February lies in the window; the window meets three years at most. */
  ghost predicate LeapDayInWindow(c: Cron, start: Civil) {
    exists year, hour, minute ::
      && start.year <= year <= start.year + 2 && IsLeap(year) && hour in c.hour && minute in c.minute
      && InWindow(start, Civil(year, 2, 29, hour, minute))
  }

  /** The weekday field is `*`, and every allowed day is impossible or a 29 February outside the window. */
  ghost predicate Hopeless(c: Cron, start: Civil) {
    && c.anyWeekday
    && (forall month, day :: month in c.month && day in c.day ==> !ValidDate(COMMON_YEAR, month, day))
    && (2 in c.month && 29 in c.day ==> !LeapDayInWindow(c, start))
  }

  lemma NextYearInWindow(start: Civil, t: Civil)
    requires Valid(start) && Valid(t) && t.year == start.year + 1
    ensures InWindow(start, t)
  {
    hide DaysBeforeYear, DaysBeforeMonth, MonthLength;
    NextYear(start.year);
    DayOfYear(start.year, start.month, start.day);
    DayOfYear(t.year, t.month, t.day);
    assert !(IsLeap(start.year) && IsLeap(t.year));
  }

  lemma CommonDateExists(year: int, month: int, day: int)
    requires ValidDate(COMMON_YEAR, month, day)
    ensures ValidDate(year, month, day)
  {
  }

  /** The horizon is long enough: it always meets the whole of the next year. */
  lemma HorizonSuffices(c: Cron, start: Civil) returns (t: Civil)
    requires WellFormed(c) && Valid(start) && !Hopeless(c, start)
    ensures InWindow(start, t) && Matches(c, t)
  {
    hide Minutes, Weekday, MonthLength, InWindow;
    var hour :| hour in c.hour;
    var minute :| minute in c.minute;
    if !c.anyWeekday {
      var month :| month in c.month;
      var weekday :| weekday in c.weekday;
      var day := EveryWeekday(start.year + 1, month, (weekday + 6) % 7);
      t := Civil(start.year + 1, month, day, hour, minute);
      NextYearInWindow(start, t);
    } else if month, day :| month in c.month && day in c.day && ValidDate(COMMON_YEAR, month, day) {
      CommonDateExists(start.year + 1, month, day);
      t := Civil(start.year + 1, month, day, hour, minute);
      NextYearInWindow(start, t);
    } else {
      var y, h, m :| && start.year <= y <= start.year + 2 && IsLeap(y) && h in c.hour && m in c.minute
                     && InWindow(start, Civil(y, 2, 29, h, m));
      t := Civil(y, 2, 29, h, m);
      assert Valid(t) by { LeapDayExists(y); }
    }
  }

  lemma LeapDayExists(year: int)
    ensures ValidDate(year, 2, 29) <==> IsLeap(year)
  {
  }

  lemma DayInRange(t: Civil)
    requires Valid(t)
    ensures 1 <= t.day <= 31
  {
  }

  lemma OnlyLeapDayIsUncommon(year: int, month: int, day: int)
    requires ValidDate(year, month, day) && !ValidDate(COMMON_YEAR, month, day)
    ensures month == 2 && day == 29 && IsLeap(year)
  {
  }

  lemma LeapDayYears(start: Civil, t: Civil)
    requires InWindow(start, t) && t.month == 2 && t.day == 29
    ensures start.year <= t.year <= start.year + 2
  {
    hide DaysBeforeYear, MonthLength;
    DayOfYear(start.year, start.month, start.day);
    DayOfYear(t.year, t.month, t.day);
    NextYear(start.year);
    if t.year < start.year {
      NextYear(t.year);
      LaterYear(t.year, start.year);
    } else if t.year > start.year {
      LaterYear(start.year, t.year);
    }
  }

  lemma MatchingIsNotHopeless(c: Cron, start: Civil, t: Civil)
    requires WellFormed(c) && InWindow(start, t) && Matches(c, t)
    ensures !Hopeless(c, start)
  {
    hide Minutes, Weekday, MonthLength;
    DayInRange(t);
    if c.anyWeekday && !ValidDate(COMMON_YEAR, t.month, t.day) {
      assert t.day in c.day;
      OnlyLeapDayIsUncommon(t.year, t.month, t.day);
      LeapDayYears(start, t);
      assert LeapDayInWindow(c, start);
    }
  }

  // ----- The search -----

  ghost predicate NoneBefore(c: Cron, start: Civil, end: Civil) {
    forall t :: Valid(t) && !Precedes(t, start) && Precedes(t, end) ==> !Matches(c, t)
  }

  lemma NoneBeforeNext(c: Cron, start: Civil, end: Civil)
    requires Valid(start) && Valid(end) && NoneBefore(c, start, end) && !Matches(c, end)
    ensures NoneBefore(c, start, Tick(end))
  {
    hide Minutes, Matches, Tick, Precedes;
    TickIsOneMinute(end);
    forall t | Valid(t) && !Precedes(t, start) && Precedes(t, Tick(end))
      ensures !Matches(c, t)
    {
      PrecedesIffFewerMinutes(t, end);
      PrecedesIffFewerMinutes(t, Tick(end));
    }
  }

  /** What `next_cron_at` answers: the first match after the given minute, or why there is none. */
  ghost predicate IsNext(expr: string, after: Civil, r: Result<Civil, CronError>)
    requires Valid(after)
  {
    if ParseCron(expr).Failure? then r == Failure(ParseCron(expr).error)
    else
      var c := ParseCron(expr).value;
      if Hopeless(c, Tick(after)) then r == Failure(NoMatchInHorizon)
      else
        && r.Success? && Valid(r.value) && Matches(c, r.value) && Precedes(after, r.value)
        && forall t :: Valid(t) && Precedes(after, t) && Precedes(t, r.value) ==> !Matches(c, t)
  }

  /**
   * `next_cron_at` for a time whose whole minute is `after`, its seconds dropped: the first matching
   * minute later than it. It raises for a malformed expression and a hopeless one, and for no other.
   */
  method NextCronAt(expr: string, after: Civil) returns (r: Result<Civil, CronError>)
    requires Valid(after)
    ensures IsNext(expr, after, r)
  {
    hide Minutes, Matches, Precedes, Tick, Hopeless, InWindow, WellFormed, ParseCron;
    var parsed := ParseCron(expr);
    if parsed.Failure? {
      return Failure(parsed.error);
    }
    var c := parsed.value;
    ParsedIsWellFormed(expr);
    TickIsOneMinute(after);
    var local := Tick(after);
    ghost var start := local;
    var i := 0;
    assert NoneBefore(c, start, local);
    while i < HORIZON
      invariant 0 <= i <= HORIZON && Valid(local) && Minutes(local) == Minutes(start) + i
      invariant NoneBefore(c, start, local)
    {
      if Matches(c, local) {
        SearchFinds(c, after, local);
        return Success(local);
      }
      NoneBeforeNext(c, start, local);
      TickIsOneMinute(local);
      local := Tick(local);
      i := i + 1;
    }
    SearchFails(c, start, local);
    r := Failure(NoMatchInHorizon);
  }

  lemma SearchFinds(c: Cron, after: Civil, found: Civil)
    requires WellFormed(c) && Valid(after) && Valid(found) && Matches(c, found)
    requires Minutes(after) + 1 <= Minutes(found) <= Minutes(after) + HORIZON && NoneBefore(c, Tick(after), found)
    ensures !Hopeless(c, Tick(after)) && Precedes(after, found)
    ensures forall t :: Valid(t) && Precedes(after, t) && Precedes(t, found) ==> !Matches(c, t)
  {
    hide Minutes, Matches, Precedes, Tick, Hopeless, WellFormed;
    TickIsOneMinute(after);
    PrecedesIffFewerMinutes(after, found);
    MatchingIsNotHopeless(c, Tick(after), found);
    forall t | Valid(t) && Precedes(after, t) && Precedes(t, found)
      ensures !Matches(c, t)
    {
      PrecedesIffFewerMinutes(after, t);
      PrecedesIffFewerMinutes(t, Tick(after));
    }
  }

  lemma SearchFails(c: Cron, start: Civil, end: Civil)
    requires WellFormed(c) && Valid(start) && Valid(end) && Minutes(end) == Minutes(start) + HORIZON && NoneBefore(c, start, end)
    ensures Hopeless(c, start)
  {
    hide Minutes, Matches, Precedes, Hopeless, WellFormed;
    if !Hopeless(c, start) {
      var t := HorizonSuffices(c, start);
      PrecedesIffFewerMinutes(t, start);
      PrecedesIffFewerMinutes(t, end);
    }
  }
}
