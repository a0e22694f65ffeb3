/**
 * `get_event_information`: one Eventbrite result page, fetched through the
 * cache, turned into rows of the module-level event lists. The HTML search is
 * a parameter; what is modelled is how the location and calendar texts are
 * cut into fields and appended.
 */
module Events {
  import opened Outcomes
  import opened Text
  import opened Cache

  // ---------------------------------------------------------------------
  // Location: "Place • City, ST"
  // ---------------------------------------------------------------------

  /** The placeholders written when a card has no location, or a location without a city. */
  const LocationMissing: string := "Location Not Available"
  const CityMissing: string := "City Not Available"
  const StateMissing: string := "Stat Not Available"

  /** U+2022 BULLET, the mark between the venue and its town. */
  const Bullet: char := '\U{2022}'

  /** The separator the venue is split off with: a space and the bullet. */
  const BulletSeparator: string := [' ', Bullet]

  datatype Place = Place(location: string, city: string, state: string)

  /**
   * The fields the card loop appends for one location, in the order it
   * appends them: location, then city, then state. `text` is the text of the
   * truncated location element, absent when the card has no such element. A
   * text containing the bullet needs a part after ` •`, and that part (once
   * stripped) needs a `, `; where indexing the split fails, the fields
   * appended before the failure are all there is.
   */
  function LocationFields(text: Option<string>): (f: seq<string>)
    ensures 1 <= |f| <= 3
    ensures |f| < 3 ==> text.Some? && Bullet in Strip(text.value)
  {
    match text
    case None => [LocationMissing, CityMissing, StateMissing]
    case Some(raw) =>
      var location := Strip(raw);
      if Bullet in location then
        var parts := Split(location, BulletSeparator);
        if |parts| < 2 then [parts[0]]
        else
          var town := Split(Strip(parts[1]), ", ");
          if |town| < 2 then [parts[0], town[0]]
          else [parts[0], town[0], town[1]]
      else [location, CityMissing, StateMissing]
  }

  /**
   * The location, city and state of one event card, or the IndexError that
   * indexing the split raises.
   */
  function SplitLocation(text: Option<string>): (r: Result<Place>)
    ensures text.None? ==> r == Ok(Place(LocationMissing, CityMissing, StateMissing))
    ensures text.Some? && Bullet !in Strip(text.value) ==> r == Ok(Place(Strip(text.value), CityMissing, StateMissing))
    ensures r.Err? ==> r.error == IndexError && text.Some? && Bullet in Strip(text.value)
  {
    var f := LocationFields(text);
    if |f| < 3 then Err(IndexError) else Ok(Place(f[0], f[1], f[2]))
  }

  /** How Eventbrite prints a venue with its town: `Place • City, ST`. */
  function FormatLocation(p: Place): string
  {
    p.location + BulletSeparator + " " + p.city + ", " + p.state
  }

  /** The venue, city and state that Eventbrite prints are read back as they were. */
  lemma LocationRoundTrip(p: Place)
    requires Bullet !in p.location && Bullet !in p.city && Bullet !in p.state
    requires ',' !in p.city && ',' !in p.state
    requires p.location != [] && !IsSpace(p.location[0])
    requires p.city != [] && !IsSpace(p.city[0])
    requires p.state != [] && !IsSpace(p.state[|p.state| - 1])
    ensures SplitLocation(Some(FormatLocation(p))) == Ok(p)
  {
    var s, rest := FormatLocation(p), " " + (p.city + ", " + p.state);
    FormatShape(p);
    VenueSplit(p.location, rest);
    TownSplit(p.city, p.state);
  }

  /** The printed text is already stripped, holds the bullet, and has no other bullet after the venue. */
  lemma FormatShape(p: Place)
    requires Bullet !in p.city && Bullet !in p.state
    requires p.location != [] && !IsSpace(p.location[0])
    requires p.state != [] && !IsSpace(p.state[|p.state| - 1])
    ensures var s, rest := FormatLocation(p), " " + (p.city + ", " + p.state);
            && s == p.location + BulletSeparator + rest
            && Strip(s) == s && Bullet in s && Bullet !in rest
  {
    var s, rest := FormatLocation(p), " " + (p.city + ", " + p.state);
    assert s == p.location + BulletSeparator + rest;
    assert "" + s == s;
    StripPadded("", s);
    assert s[|p.location| + 1] == Bullet;
    forall c | c in rest ensures c != Bullet {
      assert c in " " || c in p.city || c in ", " || c in p.state;
    }
  }

  /** The venue is cut off at the only ` •`. */
  lemma VenueSplit(venue: string, rest: string)
    requires Bullet !in venue && Bullet !in rest
    ensures Split(venue + BulletSeparator + rest, BulletSeparator) == [venue, rest]
  {
    SeparatorMarked(venue, BulletSeparator, rest, 1);
    SplitPair(venue, BulletSeparator, rest);
  }

  /** The town, once stripped, is cut at its `, `. */
  lemma TownSplit(city: string, state: string)
    requires ',' !in city && ',' !in state
    requires city != [] && !IsSpace(city[0])
    requires state != [] && !IsSpace(state[|state| - 1])
    ensures Split(Strip(" " + (city + ", " + state)), ", ") == [city, state]
  {
    StripPadded(" ", city + ", " + state);
    SeparatorMarked(city, ", ", state, 0);
    SplitPair(city, ", ", state);
  }

  // ---------------------------------------------------------------------
  // Calendar: "Sat, Apr 18, 3:00 PM" or "Today at 6:00 PM"
  // ---------------------------------------------------------------------

  /** The current time as `strftime` renders it: `%a`, `%b` and `%d`. */
  datatype Clock = Clock(weekday: string, month: string, dayOfMonth: string)

  datatype When = When(day: string, date: string, time: string)

  /**
   * The fields the calendar loop appends for one calendar text (already
   * stripped), in order: day, date, then time. A text without `, ` is
   * relative ("Today at 6:00 PM"): the day and date come from the clock, the
   * time is what follows the first `at`, and a text without `at` has no
   * time. A text with two parts has no time either; otherwise the first
   * three parts are taken.
   */
  function CalendarFields(calendar: string, now: Clock): (f: seq<string>)
    ensures 2 <= |f| <= 3
    ensures |Split(calendar, ", ")| <= 1 ==> f[..2] == [now.weekday, now.month + " " + now.dayOfMonth]
  {
    var parts := Split(calendar, ", ");
    if |parts| <= 1 then
      var halves := Split(parts[0], "at");
      var clock := [now.weekday, now.month + " " + now.dayOfMonth];
      if |halves| < 2 then clock else clock + [halves[1]]
    else if |parts| < 3 then [parts[0], parts[1]]
    else [parts[0], parts[1], parts[2]]
  }

  /** The day, date and time of one calendar text, or the IndexError that indexing a split raises. */
  function SplitCalendar(calendar: string, now: Clock): (r: Result<When>)
    ensures r.Ok? && |Split(calendar, ", ")| <= 1 ==> r.value.day == now.weekday && r.value.date == now.month + " " + now.dayOfMonth
    ensures r.Err? ==> r.error == IndexError
  {
    var f := CalendarFields(calendar, now);
    if |f| < 3 then Err(IndexError) else Ok(When(f[0], f[1], f[2]))
  }

  /** How Eventbrite prints a date that is not today or tomorrow. */
  function FormatCalendar(w: When): string
  {
    w.day + ", " + w.date + ", " + w.time
  }

  /** A printed date is read back as it was. */
  lemma CalendarRoundTrip(w: When, now: Clock)
    requires ',' !in w.day && ',' !in w.date && ',' !in w.time
    ensures SplitCalendar(FormatCalendar(w), now) == Ok(w)
  {
    JoinThree(", ", w.day, w.date, w.time);
    forall p | p in [w.day, w.date, w.time] ensures ',' !in p {
    }
    SplitJoin([w.day, w.date, w.time], ", ");
  }

  /**
   * A relative date ("Today at 6:00 PM") takes the day and date from the
   * clock; the time keeps the space that followed `at`.
   */
  lemma RelativeCalendar(word: string, time: string, now: Clock)
    requires ',' !in word && ',' !in time
    requires 't' !in word && 't' !in time
    ensures SplitCalendar(word + " at " + time, now)
            == Ok(When(now.weekday, now.month + " " + now.dayOfMonth, " " + time))
  {
    var s := word + " at " + time;
    forall c | c in s ensures c != ',' {
      assert c in word || c in " at " || c in time;
    }
    NoOccurrence(s, ", ", 0);
    SplitWhole(s, ", ");
    assert s == (word + " ") + "at" + (" " + time);
    SeparatorMarked(word + " ", "at", " " + time, 1);
    SplitPair(word + " ", "at", " " + time);
  }

  // ---------------------------------------------------------------------
  // The event lists
  // ---------------------------------------------------------------------

  /** The texts found in one event card: its name and, when present, its location element. */
  datatype Card = Card(name: string, location: Option<string>)

  /** What the HTML search finds on one page: the event cards, and the calendar texts of the date boxes. */
  datatype Page = Page(cards: seq<Card>, calendars: seq<string>)

  /** The eight module-level lists, as one value. */
  datatype Columns = Columns(
    names: seq<string>, locations: seq<string>, cities: seq<string>, states: seq<string>,
    calendars: seq<string>, days: seq<string>, dates: seq<string>, times: seq<string>)

  /** The lists filled by the card loop grow together, and so do those filled by the calendar loop. */
  predicate Aligned(c: Columns)
  {
    && |c.locations| == |c.names| && |c.cities| == |c.names| && |c.states| == |c.names|
    && |c.days| == |c.calendars| && |c.dates| == |c.calendars| && |c.times| == |c.calendars|
  }

  /**
   * The lists after some appending, and whether it ended normally or with an
   * exception. An exception leaves in the lists whatever was appended before it.
   */
  datatype Appended = Appended(table: Columns, outcome: Result<()>)

  /** `[f[k]]` when the field was appended, nothing otherwise. */
  function Field(f: seq<string>, k: nat): seq<string>
  {
    if k < |f| then [f[k]] else []
  }

  /**
   * One pass of the card loop: the stripped name, then the location fields
   * as far as they get. Missing fields mean IndexError.
   */
  function AddCard(c: Columns, card: Card): Appended
  {
    var f := LocationFields(card.location);
    Appended(c.(names := c.names + [Strip(card.name)], locations := c.locations + [f[0]],
                cities := c.cities + Field(f, 1), states := c.states + Field(f, 2)),
             if |f| < 3 then Err(IndexError) else Ok(()))
  }

  /** The card loop over a page; the first card whose location cannot be split stops it. */
  function AddCards(c: Columns, cards: seq<Card>): Appended
    decreases |cards|
  {
    if cards == [] then Appended(c, Ok(()))
    else
      var before := AddCards(c, cards[..|cards| - 1]);
      if before.outcome.Err? then before else AddCard(before.table, cards[|cards| - 1])
  }

  /**
   * One pass of the calendar loop: the stripped calendar text, then its day,
   * date and time as far as they get. A missing time means IndexError.
   */
  function AddCalendar(c: Columns, raw: string, now: Clock): Appended
  {
    var calendar := Strip(raw);
    var f := CalendarFields(calendar, now);
    Appended(c.(calendars := c.calendars + [calendar], days := c.days + [f[0]],
                dates := c.dates + [f[1]], times := c.times + Field(f, 2)),
             if |f| < 3 then Err(IndexError) else Ok(()))
  }

  /** The calendar loop over a page; the first text that cannot be split stops it. */
  function AddCalendars(c: Columns, calendars: seq<string>, now: Clock): Appended
    decreases |calendars|
  {
    if calendars == [] then Appended(c, Ok(()))
    else
      var before := AddCalendars(c, calendars[..|calendars| - 1], now);
      if before.outcome.Err? then before else AddCalendar(before.table, calendars[|calendars| - 1], now)
  }

  /** `ok` holds of every item of `s`, checked from the first to the last as the loops do. */
  predicate Every<T>(s: seq<T>, ok: T -> bool)
    decreases |s|
  {
    s == [] || (Every(s[..|s| - 1], ok) && ok(s[|s| - 1]))
  }

  lemma {:induction false} EveryMeans<T>(s: seq<T>, ok: T -> bool)
    ensures Every(s, ok) <==> forall i :: 0 <= i < |s| ==> ok(s[i])
    decreases |s|
  {
    if s != [] {
      var init := s[..|s| - 1];
      EveryMeans(init, ok);
      assert forall i :: 0 <= i < |init| ==> init[i] == s[i];
    }
  }

  /** The card loop's test: the card's location can be split. */
  function LocationSplits(card: Card): bool
  {
    SplitLocation(card.location).Ok?
  }

  /** The card loop gets through a page exactly when every card's location can be split. */
  lemma AddCardsOk(c: Columns, cards: seq<Card>)
    ensures AddCards(c, cards).outcome.Ok? <==> forall i :: 0 <= i < |cards| ==> SplitLocation(cards[i].location).Ok?
  {
    AddCardsEvery(c, cards);
    EveryMeans(cards, LocationSplits);
  }

  lemma {:induction false} AddCardsEvery(c: Columns, cards: seq<Card>)
    ensures AddCards(c, cards).outcome.Ok? <==> Every(cards, LocationSplits)
    decreases |cards|
  {
    if cards != [] {
      AddCardsEvery(c, cards[..|cards| - 1]);
      AddCardsLast(c, cards);
    }
  }

  /** One pass of the card loop gets through exactly when the card's location can be split. */
  lemma AddCardOutcome(c: Columns, card: Card)
    ensures AddCard(c, card).outcome.Ok? <==> SplitLocation(card.location).Ok?
  {
  }

  /** The card loop gets through a page exactly when it gets through all but the last card and then that one. */
  lemma AddCardsLast(c: Columns, cards: seq<Card>)
    requires cards != []
    ensures AddCards(c, cards).outcome.Ok?
            <==> AddCards(c, cards[..|cards| - 1]).outcome.Ok? && SplitLocation(cards[|cards| - 1].location).Ok?
  {
    AddCardOutcome(AddCards(c, cards[..|cards| - 1]).table, cards[|cards| - 1]);
  }

  /** Whatever happens, the card loop leaves the calendar lists alone. */
  lemma {:induction false} AddCardsSpareCalendars(c: Columns, cards: seq<Card>)
    ensures var r := AddCards(c, cards).table;
            r.calendars == c.calendars && r.days == c.days && r.dates == c.dates && r.times == c.times
    decreases |cards|
  {
    if cards != [] {
      AddCardsSpareCalendars(c, cards[..|cards| - 1]);
    }
  }

  /** The calendar loop's test: the stripped calendar text can be split on the day `now`. */
  function CalendarSplitsOn(now: Clock, raw: string): bool
  {
    SplitCalendar(Strip(raw), now).Ok?
  }

  /** `CalendarSplitsOn` for a fixed day, as a test on the texts alone. */
  function CalendarSplits(now: Clock): string -> bool
  {
    raw => CalendarSplitsOn(now, raw)
  }

  /** The calendar loop gets through a page exactly when every stripped calendar text can be split. */
  lemma AddCalendarsOk(c: Columns, calendars: seq<string>, now: Clock)
    ensures AddCalendars(c, calendars, now).outcome.Ok?
            <==> forall i :: 0 <= i < |calendars| ==> SplitCalendar(Strip(calendars[i]), now).Ok?
  {
    AddCalendarsEvery(c, calendars, now);
    EveryMeans(calendars, CalendarSplits(now));
  }

  lemma {:induction false} AddCalendarsEvery(c: Columns, calendars: seq<string>, now: Clock)
    ensures AddCalendars(c, calendars, now).outcome.Ok? <==> Every(calendars, CalendarSplits(now))
    decreases |calendars|
  {
    if calendars != [] {
      AddCalendarsEvery(c, calendars[..|calendars| - 1], now);
      AddCalendarsLast(c, calendars, now);
    }
  }

  /** One pass of the calendar loop gets through exactly when the stripped text can be split. */
  lemma AddCalendarOutcome(c: Columns, raw: string, now: Clock)
    ensures AddCalendar(c, raw, now).outcome.Ok? <==> SplitCalendar(Strip(raw), now).Ok?
  {
  }

  /** The calendar loop gets through a page exactly when it gets through all but the last text and then that one. */
  lemma AddCalendarsLast(c: Columns, calendars: seq<string>, now: Clock)
    requires calendars != []
    ensures AddCalendars(c, calendars, now).outcome.Ok?
            <==> AddCalendars(c, calendars[..|calendars| - 1], now).outcome.Ok?
                 && SplitCalendar(Strip(calendars[|calendars| - 1]), now).Ok?
  {
    AddCalendarOutcome(AddCalendars(c, calendars[..|calendars| - 1], now).table, calendars[|calendars| - 1], now);
  }

  /** Whatever happens, the calendar loop leaves the card lists alone. */
  lemma {:induction false} AddCalendarsSpareCards(c: Columns, calendars: seq<string>, now: Clock)
    ensures var r := AddCalendars(c, calendars, now).table;
            r.names == c.names && r.locations == c.locations && r.cities == c.cities && r.states == c.states
    decreases |calendars|
  {
    if calendars != [] {
      AddCalendarsSpareCards(c, calendars[..|calendars| - 1], now);
    }
  }

  /** Once a card fails, the cards after it change nothing: the loop has stopped with that error. */
  lemma {:induction false} AddCardsStopped(c: Columns, cards: seq<Card>, n: nat)
    requires n <= |cards| && AddCards(c, cards[..n]).outcome.Err?
    ensures AddCards(c, cards) == AddCards(c, cards[..n])
    decreases |cards|
  {
    if n < |cards| {
      var init := cards[..|cards| - 1];
      assert init[..n] == cards[..n];
      AddCardsStopped(c, init, n);
    } else {
      assert cards[..n] == cards;
    }
  }

  /** Once a calendar text fails, the texts after it change nothing. */
  lemma {:induction false} AddCalendarsStopped(c: Columns, calendars: seq<string>, now: Clock, n: nat)
    requires n <= |calendars| && AddCalendars(c, calendars[..n], now).outcome.Err?
    ensures AddCalendars(c, calendars, now) == AddCalendars(c, calendars[..n], now)
    decreases |calendars|
  {
    if n < |calendars| {
      var init := calendars[..|calendars| - 1];
      assert init[..n] == calendars[..n];
      AddCalendarsStopped(c, init, now, n);
    } else {
      assert calendars[..n] == calendars;
    }
  }

  /** What one page adds to the lists: the card loop, then the calendar loop. */
  function AddPage(c: Columns, page: Page, now: Clock): Appended
  {
    var afterCards := AddCards(c, page.cards);
    if afterCards.outcome.Err? then afterCards else AddCalendars(afterCards.table, page.calendars, now)
  }

  /**
   * What a sequence of fetched pages adds, page by page, with `parse` finding
   * each page's cards and calendar texts; the first page that fails stops it.
   */
  function AddPages(c: Columns, bodies: seq<Json>, parse: Json -> Page, now: Clock): Appended
    decreases |bodies|
  {
    if bodies == [] then Appended(c, Ok(()))
    else
      var before := AddPages(c, bodies[..|bodies| - 1], parse, now);
      if before.outcome.Err? then before else AddPage(before.table, parse(bodies[|bodies| - 1]), now)
  }

  /** The card loop keeps the earlier rows of its lists and adds one row per card. */
  lemma {:induction false} AddCardsKeep(c: Columns, cards: seq<Card>)
    requires AddCards(c, cards).outcome.Ok?
    ensures var r := AddCards(c, cards).table;
            && |r.names| == |c.names| + |cards| && |r.locations| == |c.locations| + |cards|
            && |r.cities| == |c.cities| + |cards| && |r.states| == |c.states| + |cards|
            && r.names[..|c.names|] == c.names && r.locations[..|c.locations|] == c.locations
            && r.cities[..|c.cities|] == c.cities && r.states[..|c.states|] == c.states
    decreases |cards|
  {
    if cards != [] {
      var init := cards[..|cards| - 1];
      AddCardsKeep(c, init);
      var before := AddCards(c, init).table;
      AddCardStep(before, cards[|cards| - 1]);
      var r := AddCards(c, cards).table;
      assert r.names[..|c.names|] == before.names[..|c.names|];
      assert r.locations[..|c.locations|] == before.locations[..|c.locations|];
      assert r.cities[..|c.cities|] == before.cities[..|c.cities|];
      assert r.states[..|c.states|] == before.states[..|c.states|];
    }
  }

  /** The row the card loop adds for card `i`: its stripped name and the split fields of its location. */
  lemma {:induction false} AddCardsEntry(c: Columns, cards: seq<Card>, i: nat)
    requires i < |cards| && AddCards(c, cards).outcome.Ok?
    requires var r := AddCards(c, cards).table;
             && |r.names| == |c.names| + |cards| && |r.locations| == |c.locations| + |cards|
             && |r.cities| == |c.cities| + |cards| && |r.states| == |c.states| + |cards|
    ensures var r := AddCards(c, cards).table;
            && r.names[|c.names| + i] == Strip(cards[i].name)
            && Ok(Place(r.locations[|c.locations| + i], r.cities[|c.cities| + i], r.states[|c.states| + i]))
               == SplitLocation(cards[i].location)
    decreases |cards|
  {
    var init := cards[..|cards| - 1];
    var before := AddCards(c, init).table;
    AddCardStep(before, cards[|cards| - 1]);
    if i < |init| {
      AddCardsKeep(c, init);
      AddCardsEntry(c, init, i);
      assert cards[i] == init[i];
    }
  }

  /** One card that does not raise adds one row holding its stripped name and the split fields of its location. */
  lemma AddCardStep(c: Columns, card: Card)
    requires AddCard(c, card).outcome.Ok?
    ensures var r, p := AddCard(c, card).table, SplitLocation(card.location);
            && p.Ok?
            && r == c.(names := c.names + [Strip(card.name)], locations := c.locations + [p.value.location],
                       cities := c.cities + [p.value.city], states := c.states + [p.value.state])
  {
  }

  /**
   * The rows the card loop adds: one per card, holding its stripped name and
   * the fields of its location. Earlier rows are kept.
   */
  lemma {:induction false} AddCardsRows(c: Columns, cards: seq<Card>)
    requires AddCards(c, cards).outcome.Ok?
    ensures var r := AddCards(c, cards).table;
            && |r.names| == |c.names| + |cards| && |r.locations| == |c.locations| + |cards|
            && |r.cities| == |c.cities| + |cards| && |r.states| == |c.states| + |cards|
            && r.names[..|c.names|] == c.names && r.locations[..|c.locations|] == c.locations
            && r.cities[..|c.cities|] == c.cities && r.states[..|c.states|] == c.states
            && forall i :: 0 <= i < |cards| ==>
                 && r.names[|c.names| + i] == Strip(cards[i].name)
                 && Ok(Place(r.locations[|c.locations| + i], r.cities[|c.cities| + i], r.states[|c.states| + i]))
                    == SplitLocation(cards[i].location)
  {
    AddCardsKeep(c, cards);
    var r := AddCards(c, cards).table;
    forall i | 0 <= i < |cards|
      ensures && r.names[|c.names| + i] == Strip(cards[i].name)
              && Ok(Place(r.locations[|c.locations| + i], r.cities[|c.cities| + i], r.states[|c.states| + i]))
                 == SplitLocation(cards[i].location)
    {
      AddCardsEntry(c, cards, i);
    }
  }

  /**
   * A card that raises has a location with the bullet. Its name is appended,
   * and so is the text before the first ` •`, but no state: the row is torn.
   */
  lemma AddCardRaised(c: Columns, card: Card)
    requires AddCard(c, card).outcome.Err?
    ensures var r := AddCard(c, card).table;
            && card.location.Some? && Bullet in Strip(card.location.value)
            && AddCard(c, card).outcome == Err(IndexError)
            && r.names == c.names + [Strip(card.name)]
            && r.locations == c.locations + [Split(Strip(card.location.value), BulletSeparator)[0]]
            && |r.cities| <= |c.cities| + 1 && r.cities[..|c.cities|] == c.cities
            && r.states == c.states
  {
  }

  /** The calendar loop keeps the earlier rows of its lists and adds one row per text. */
  lemma {:induction false} AddCalendarsKeep(c: Columns, calendars: seq<string>, now: Clock)
    requires AddCalendars(c, calendars, now).outcome.Ok?
    ensures var r := AddCalendars(c, calendars, now).table;
            && |r.calendars| == |c.calendars| + |calendars| && |r.days| == |c.days| + |calendars|
            && |r.dates| == |c.dates| + |calendars| && |r.times| == |c.times| + |calendars|
            && r.calendars[..|c.calendars|] == c.calendars && r.days[..|c.days|] == c.days
            && r.dates[..|c.dates|] == c.dates && r.times[..|c.times|] == c.times
    decreases |calendars|
  {
    if calendars != [] {
      var init := calendars[..|calendars| - 1];
      AddCalendarsKeep(c, init, now);
      var before := AddCalendars(c, init, now).table;
      AddCalendarStep(before, calendars[|calendars| - 1], now);
      var r := AddCalendars(c, calendars, now).table;
      assert r.calendars[..|c.calendars|] == before.calendars[..|c.calendars|];
      assert r.days[..|c.days|] == before.days[..|c.days|];
      assert r.dates[..|c.dates|] == before.dates[..|c.dates|];
      assert r.times[..|c.times|] == before.times[..|c.times|];
    }
  }

  /** The row the calendar loop adds for text `i`: the stripped text and its split day, date and time. */
  lemma {:induction false} AddCalendarsEntry(c: Columns, calendars: seq<string>, now: Clock, i: nat)
    requires i < |calendars| && AddCalendars(c, calendars, now).outcome.Ok?
    requires var r := AddCalendars(c, calendars, now).table;
             && |r.calendars| == |c.calendars| + |calendars| && |r.days| == |c.days| + |calendars|
             && |r.dates| == |c.dates| + |calendars| && |r.times| == |c.times| + |calendars|
    ensures var r := AddCalendars(c, calendars, now).table;
            && r.calendars[|c.calendars| + i] == Strip(calendars[i])
            && Ok(When(r.days[|c.days| + i], r.dates[|c.dates| + i], r.times[|c.times| + i]))
               == SplitCalendar(Strip(calendars[i]), now)
    decreases |calendars|
  {
    var init := calendars[..|calendars| - 1];
    var before := AddCalendars(c, init, now).table;
    AddCalendarStep(before, calendars[|calendars| - 1], now);
    if i < |init| {
      AddCalendarsKeep(c, init, now);
      AddCalendarsEntry(c, init, now, i);
      assert calendars[i] == init[i];
    }
  }

  /** One calendar text that does not raise adds one row holding the stripped text and its split fields. */
  lemma AddCalendarStep(c: Columns, raw: string, now: Clock)
    requires AddCalendar(c, raw, now).outcome.Ok?
    ensures var r, w := AddCalendar(c, raw, now).table, SplitCalendar(Strip(raw), now);
            && w.Ok?
            && r == c.(calendars := c.calendars + [Strip(raw)], days := c.days + [w.value.day],
                       dates := c.dates + [w.value.date], times := c.times + [w.value.time])
  {
  }

  /**
   * The rows the calendar loop adds: one per calendar text, holding the
   * stripped text and its day, date and time. Earlier rows are kept.
   */
  lemma {:induction false} AddCalendarsRows(c: Columns, calendars: seq<string>, now: Clock)
    requires AddCalendars(c, calendars, now).outcome.Ok?
    ensures var r := AddCalendars(c, calendars, now).table;
            && |r.calendars| == |c.calendars| + |calendars| && |r.days| == |c.days| + |calendars|
            && |r.dates| == |c.dates| + |calendars| && |r.times| == |c.times| + |calendars|
            && r.calendars[..|c.calendars|] == c.calendars && r.days[..|c.days|] == c.days
            && r.dates[..|c.dates|] == c.dates && r.times[..|c.times|] == c.times
            && forall i :: 0 <= i < |calendars| ==>
                 && r.calendars[|c.calendars| + i] == Strip(calendars[i])
                 && Ok(When(r.days[|c.days| + i], r.dates[|c.dates| + i], r.times[|c.times| + i]))
                    == SplitCalendar(Strip(calendars[i]), now)
  {
    AddCalendarsKeep(c, calendars, now);
    var r := AddCalendars(c, calendars, now).table;
    forall i | 0 <= i < |calendars|
      ensures && r.calendars[|c.calendars| + i] == Strip(calendars[i])
              && Ok(When(r.days[|c.days| + i], r.dates[|c.dates| + i], r.times[|c.times| + i]))
                 == SplitCalendar(Strip(calendars[i]), now)
    {
      AddCalendarsEntry(c, calendars, now, i);
    }
  }

  /**
   * A calendar text that raises still has its stripped text, its day and its
   * date appended, but no time: the row is torn.
   */
  lemma AddCalendarRaised(c: Columns, raw: string, now: Clock)
    requires AddCalendar(c, raw, now).outcome.Err?
    ensures var r, f := AddCalendar(c, raw, now).table, CalendarFields(Strip(raw), now);
            && AddCalendar(c, raw, now).outcome == Err(IndexError)
            && r.calendars == c.calendars + [Strip(raw)]
            && r.days == c.days + [f[0]] && r.dates == c.dates + [f[1]]
            && r.times == c.times
  {
  }

  /** A page that does not raise keeps the lists aligned. */
  lemma {:induction false} AddPageAligned(c: Columns, page: Page, now: Clock)
    requires Aligned(c) && AddPage(c, page, now).outcome.Ok?
    ensures Aligned(AddPage(c, page, now).table)
  {
    AlignedCards(c, page.cards);
    AlignedCalendars(AddCards(c, page.cards).table, page.calendars, now);
  }

  lemma {:induction false} AlignedCards(c: Columns, cards: seq<Card>)
    requires Aligned(c) && AddCards(c, cards).outcome.Ok?
    ensures Aligned(AddCards(c, cards).table)
    decreases |cards|
  {
    if cards != [] {
      AlignedCards(c, cards[..|cards| - 1]);
    }
  }

  lemma {:induction false} AlignedCalendars(c: Columns, calendars: seq<string>, now: Clock)
    requires Aligned(c) && AddCalendars(c, calendars, now).outcome.Ok?
    ensures Aligned(AddCalendars(c, calendars, now).table)
    decreases |calendars|
  {
    if calendars != [] {
      AlignedCalendars(c, calendars[..|calendars| - 1], now);
    }
  }

  /** Every page keeps the lists aligned, so a whole crawl without an exception does. */
  lemma {:induction false} AddPagesAligned(c: Columns, bodies: seq<Json>, parse: Json -> Page, now: Clock)
    requires Aligned(c) && AddPages(c, bodies, parse, now).outcome.Ok?
    ensures Aligned(AddPages(c, bodies, parse, now).table)
    decreases |bodies|
  {
    if bodies != [] {
      var init := bodies[..|bodies| - 1];
      AddPagesAligned(c, init, parse, now);
      AddPageAligned(AddPages(c, init, parse, now).table, parse(bodies[|bodies| - 1]), now);
    }
  }

  /** From aligned lists, a card loop that raises leaves the state list one row short of the name list. */
  lemma {:induction false} AddCardsTorn(c: Columns, cards: seq<Card>)
    requires Aligned(c) && AddCards(c, cards).outcome.Err?
    ensures var r := AddCards(c, cards).table;
            |r.states| + 1 == |r.names| && |r.locations| == |r.names|
    decreases |cards|
  {
    var init := cards[..|cards| - 1];
    if AddCards(c, init).outcome.Err? {
      AddCardsTorn(c, init);
    } else {
      AlignedCards(c, init);
      AddCardRaised(AddCards(c, init).table, cards[|cards| - 1]);
    }
  }

  /** From aligned lists, a calendar loop that raises leaves the time list one row short of the calendar list. */
  lemma {:induction false} AddCalendarsTorn(c: Columns, calendars: seq<string>, now: Clock)
    requires Aligned(c) && AddCalendars(c, calendars, now).outcome.Err?
    ensures var r := AddCalendars(c, calendars, now).table;
            |r.times| + 1 == |r.calendars| && |r.days| == |r.calendars|
    decreases |calendars|
  {
    var init := calendars[..|calendars| - 1];
    if AddCalendars(c, init, now).outcome.Err? {
      AddCalendarsTorn(c, init, now);
    } else {
      AlignedCalendars(c, init, now);
      AddCalendarRaised(AddCalendars(c, init, now).table, calendars[|calendars| - 1], now);
    }
  }

  /** A page that raises leaves the lists out of line with each other. */
  lemma {:induction false} AddPageTorn(c: Columns, page: Page, now: Clock)
    requires Aligned(c) && AddPage(c, page, now).outcome.Err?
    ensures !Aligned(AddPage(c, page, now).table)
  {
    if AddCards(c, page.cards).outcome.Err? {
      AddCardsTorn(c, page.cards);
    } else {
      AlignedCards(c, page.cards);
      AddCalendarsTorn(AddCards(c, page.cards).table, page.calendars, now);
    }
  }

  /** The event lists of the module: `event_names`, `event_location`, ..., `event_time`. */
  class EventLists {
    var names: seq<string>
    var locations: seq<string>
    var cities: seq<string>
    var states: seq<string>
    var calendars: seq<string>
    var days: seq<string>
    var dates: seq<string>
    var times: seq<string>

    function Table(): Columns
      reads this
    {
      Columns(names, locations, cities, states, calendars, days, dates, times)
    }

    /** All eight lists start empty. */
    constructor ()
      ensures Table() == Columns([], [], [], [], [], [], [], [])
    {
      names, locations, cities, states := [], [], [], [];
      calendars, days, dates, times := [], [], [], [];
    }

    /**
     * `get_event_information(pageUrl)`: fetch the page through the cache,
     * find its cards and calendar texts (`parse`), and append their fields.
     * The lists then hold what `AddPage` gives, partial rows included when
     * an exception is raised; the exception is returned.
     */
    method GetEventInformation(g: FetchGateway, pageUrl: string, parse: Json -> Page, now: Clock)
      returns (r: Result<()>)
      requires g.Valid()
      modifies this, g
      ensures g.Valid()
      ensures var call := Call(g.network, old(g.State()), Request(pageUrl, [], map[]));
              && g.State() == call.0
              && AddPage(old(Table()), parse(call.1), now) == Appended(Table(), r)
      ensures |g.sent| >= |old(g.sent)| && (|g.sent| == |old(g.sent)| ==> g.sent == old(g.sent) && g.disk == old(g.disk))
    {
      var response := g.MakeRequestWithCache(pageUrl, [], map[]);
      var page := parse(response);
      r := AppendCards(page.cards);
      if r.Ok? {
        r := AppendCalendars(page.calendars, now);
      }
    }

    /** The card loop: one row per card, up to the first location that cannot be split. */
    method AppendCards(cards: seq<Card>) returns (r: Result<()>)
      modifies this
      ensures AddCards(old(Table()), cards) == Appended(Table(), r)
    {
      ghost var start := Table();
      for i := 0 to |cards|
        invariant AddCards(start, cards[..i]) == Appended(Table(), Ok(()))
      {
        assert cards[..i + 1][..i] == cards[..i];
        r := AppendCard(cards[i]);
        if r.Err? {
          AddCardsStopped(start, cards, i + 1);
          return;
        }
      }
      assert cards[..|cards|] == cards;
      r := Ok(());
    }

    /**
     * One card: its stripped name, then its location, city and state. A
     * location with the bullet is split; an index that the split lacks
     * raises IndexError after the fields before it were appended.
     */
    method AppendCard(card: Card) returns (r: Result<()>)
      modifies this
      ensures AddCard(old(Table()), card) == Appended(Table(), r)
    {
      names := names + [Strip(card.name)];
      match card.location {
        case None =>
          locations := locations + [LocationMissing];
          cities := cities + [CityMissing];
          states := states + [StateMissing];
        case Some(raw) =>
          var location := Strip(raw);
          if Bullet in location {
            var parts := Split(location, BulletSeparator);
            locations := locations + [parts[0]];
            if |parts| < 2 {
              return Err(IndexError);
            }
            var town := Split(Strip(parts[1]), ", ");
            cities := cities + [town[0]];
            if |town| < 2 {
              return Err(IndexError);
            }
            states := states + [town[1]];
          } else {
            locations := locations + [location];
            cities := cities + [CityMissing];
            states := states + [StateMissing];
          }
      }
      r := Ok(());
    }

    /** The calendar loop: one row per calendar text, up to the first that cannot be split. */
    method AppendCalendars(texts: seq<string>, now: Clock) returns (r: Result<()>)
      modifies this
      ensures AddCalendars(old(Table()), texts, now) == Appended(Table(), r)
    {
      ghost var start := Table();
      for i := 0 to |texts|
        invariant AddCalendars(start, texts[..i], now) == Appended(Table(), Ok(()))
      {
        assert texts[..i + 1][..i] == texts[..i];
        r := AppendCalendar(texts[i], now);
        if r.Err? {
          AddCalendarsStopped(start, texts, now, i + 1);
          return;
        }
      }
      assert texts[..|texts|] == texts;
      r := Ok(());
    }

    /**
     * One calendar text: the stripped text, then its day and date, then its
     * time. A text lacking the time raises IndexError after the day and date
     * were appended.
     */
    method AppendCalendar(raw: string, now: Clock) returns (r: Result<()>)
      modifies this
      ensures AddCalendar(old(Table()), raw, now) == Appended(Table(), r)
    {
      var calendar := Strip(raw);
      calendars := calendars + [calendar];
      var parts := Split(calendar, ", ");
      if |parts| <= 1 {
        days := days + [now.weekday];
        dates := dates + [now.month + " " + now.dayOfMonth];
        var halves := Split(parts[0], "at");
        if |halves| < 2 {
          return Err(IndexError);
        }
        times := times + [halves[1]];
      } else {
        days := days + [parts[0]];
        dates := dates + [parts[1]];
        if |parts| < 3 {
          return Err(IndexError);
        }
        times := times + [parts[2]];
      }
      r := Ok(());
    }
  }
}
