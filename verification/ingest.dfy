/**
 The two pure rules applied while loading the restaurant CSV (operations.py):
 `group_hours`, which turns an opening-hours text such as
 "Mon: 12:00-16:00, 19:00-23:00, Tue: 12:00-16:00" into one entry per week day,
 and the splitting of the list columns (`meals_list`, `top_tags_list`,
 `cuisines_list`) on commas.
 */
module Ingest {
  import opened Optional
  import opened Text
  import opened OrderedDict

  /** A CSV cell as the loader sees it: a string, or any other value (an empty cell reads as a float NaN). */
  datatype Cell = TextCell(s: string) | OtherCell

  /** The data set's marker for a missing value. */
  const NotAvailable: string := "no_disponible"

  /** The lower-case day names `group_hours` recognises, in week order. */
  const Days: seq<string> := ["mon", "tue", "wed", "thu", "fri", "sat", "sun"]

  /** One output entry `{"day": key, "hours": value}`; the entries in order form the dict `grouped`. */
  type DayHours = Entry<string, string>

  /** The loop state of `group_hours`: the insertion-ordered dict `grouped` and `current_day`. */
  datatype Grouping = Grouping(grouped: seq<DayHours>, current: Option<string>)

  predicate OnlyWeekDays(ps: seq<DayHours>)
  {
    forall i :: 0 <= i < |ps| ==> ps[i].key in Days
  }

  /** The loop invariant of `group_hours`. */
  predicate Inv(g: Grouping)
  {
    && DistinctKeys(g.grouped)
    && OnlyWeekDays(g.grouped)
    && (g.current.Some? ==> HasKey(g.grouped, g.current.value))
  }

  /** The day key of an item that holds a colon: the text before the first colon, lower-cased. */
  function DayKey(h: string): string
    requires ':' in h
  {
    Lower(Before(h, ':'))
  }

  predicate IsDayItem(h: string)
  {
    ':' in h && DayKey(h) in Days
  }

  /** One iteration of the loop of `group_hours` on the stripped item `h`. */
  function Step(g: Grouping, h: string): (g': Grouping)
    requires Inv(g)
    ensures Inv(g')
  {
    if ':' !in h then g
    else if DayKey(h) in Days then
      var d := DayKey(h);
      Grouping(Put(g.grouped, d, After(h, ':')), Some(d))
    else if g.current.Some? then
      var d := g.current.value;
      Grouping(Put(g.grouped, d, Get(g.grouped, d) + ", " + h), g.current)
    else g
  }

  /** The loop of `group_hours` over `items`, in order. */
  function Run(g: Grouping, items: seq<string>): (g': Grouping)
    requires Inv(g)
    ensures Inv(g')
    ensures |g'.grouped| <= |g.grouped| + |items|
  {
    if items == [] then g
    else Step(Run(g, items[..|items| - 1]), items[|items| - 1])
  }

  /** `[h.strip() for h in s.split(",")]` */
  function Items(s: string): (items: seq<string>)
    ensures |items| == |Split(s, ',')|
  {
    var parts := Split(s, ',');
    seq(|parts|, i requires 0 <= i < |parts| => Strip(parts[i]))
  }

  /** `group_hours(cell)` */
  function GroupHours(cell: Cell): (r: seq<DayHours>)
    ensures cell.OtherCell? || cell.s == NotAvailable ==> r == []
    ensures DistinctKeys(r) && OnlyWeekDays(r)
    ensures |r| <= 7
    ensures cell.TextCell? ==> |r| <= Occurrences(cell.s, ',') + 1
  {
    if cell.OtherCell? || cell.s == NotAvailable then []
    else
      var r := Run(Grouping([], None), Items(cell.s)).grouped;
      SplitCount(cell.s, ',');
      WeekBound(r, Days);
      r
  }

  /** A dict keyed by distinct week days has at most as many entries as there are allowed days. */
  lemma {:induction false} WeekBound(ps: seq<DayHours>, allowed: seq<string>)
    requires DistinctKeys(ps)
    requires forall i :: 0 <= i < |ps| ==> ps[i].key in allowed
    ensures |ps| <= |allowed|
  {
    if ps != [] {
      var d := ps[0].key;
      var k :| 0 <= k < |allowed| && allowed[k] == d;
      var rest := allowed[..k] + allowed[k + 1..];
      forall i | 0 <= i < |ps[1..]|
        ensures ps[1..][i].key in rest
      {
        var e := ps[1..][i].key;
        assert e != d;
        var m :| 0 <= m < |allowed| && allowed[m] == e;
        if m < k {
          assert rest[m] == e;
        } else {
          assert rest[m - 1] == e;
        }
      }
      WeekBound(ps[1..], rest);
    }
  }

  // ---------------------------------------------------------------------------
  // The per-item rules of group_hours, stated on the input text.
  // ---------------------------------------------------------------------------

  /** `current_day` after a sequence of items: the day of the last day item, if any. */
  function LastDay(items: seq<string>): Option<string>
  {
    if items == [] then None
    else if IsDayItem(items[|items| - 1]) then Some(DayKey(items[|items| - 1]))
    else LastDay(items[..|items| - 1])
  }

  /** The loop's `current_day` is the day of the last day item seen so far. */
  lemma {:induction false} RunCurrentDay(items: seq<string>)
    ensures Run(Grouping([], None), items).current == LastDay(items)
  {
    if items != [] {
      RunCurrentDay(items[..|items| - 1]);
    }
  }

  /** One more comma-separated item adds one stripped item at the end. */
  lemma ItemsAppend(s: string, h: string)
    requires ',' !in h
    ensures Items(s + [','] + h) == Items(s) + [Strip(h)]
  {
    SplitAppend(s, h, ',');
    SplitPiece(h, ',');
    var whole := Items(s + [','] + h);
    var front := Items(s);
    var parts := Split(s + [','] + h, ',');
    assert parts == Split(s, ',') + [h];
    assert |whole| == |front| + 1;
    forall i | 0 <= i < |whole|
      ensures whole[i] == (front + [Strip(h)])[i]
    {
      assert whole[i] == Strip(parts[i]);
    }
  }

  /** `group_hours` of a text is the grouping its items build (the "no_disponible" text holds no colon). */
  lemma GroupHoursText(s: string)
    ensures GroupHours(TextCell(s)) == Run(Grouping([], None), Items(s)).grouped
  {
    if s == NotAvailable {
      NotAvailableGroupsNothing();
    }
  }

  /** The loop over the items of "no_disponible" stores nothing: its one item holds no colon. */
  lemma NotAvailableGroupsNothing()
    ensures Run(Grouping([], None), Items(NotAvailable)).grouped == []
  {
    var s := NotAvailable;
    assert ',' !in s && ':' !in s;
    SplitPiece(s, ',');
    var items := Items(s);
    assert items == [Strip(s)];
    StripWithout(s, ':');
    assert items[..0] == [];
    assert Run(Grouping([], None), items) == Step(Grouping([], None), Strip(s)) == Grouping([], None);
  }

  /**
   A cell holding one item: a day item gives that day with the text after its
   first colon; any other item (no colon, or no day before the colon) gives nothing.
   */
  lemma SingleItem(h: string)
    requires ',' !in h
    ensures GroupHours(TextCell(h))
         == if IsDayItem(Strip(h)) then [Entry(DayKey(Strip(h)), After(Strip(h), ':'))] else []
  {
    GroupHoursText(h);
    SplitPiece(h, ',');
    assert Items(h) == [Strip(h)];
    RunOne(Strip(h));
  }

  /** The loop over one item: a day item gives its one entry, any other item nothing. */
  lemma RunOne(h: string)
    ensures Run(Grouping([], None), [h]).grouped
         == if IsDayItem(h) then [Entry(DayKey(h), After(h, ':'))] else []
  {
    assert [h][..0] == [];
    assert Run(Grouping([], None), [h]) == Step(Grouping([], None), h);
  }

  /** Shared step of the three rules: `group_hours` of `s` with the item `h` appended. */
  lemma AppendItem(s: string, h: string)
    requires ',' !in h
    ensures GroupHours(TextCell(s + [','] + h))
         == Step(Run(Grouping([], None), Items(s)), Strip(h)).grouped
  {
    GroupHoursText(s + [','] + h);
    ItemsAppend(s, h);
    var items := Items(s + [','] + h);
    assert items[..|items| - 1] == Items(s) && items[|items| - 1] == Strip(h);
    assert Run(Grouping([], None), items) == Step(Run(Grouping([], None), Items(s)), Strip(h));
  }

  /** An item holding no colon is dropped. */
  lemma DropsItemWithoutColon(s: string, h: string)
    requires ',' !in h && ':' !in h
    ensures GroupHours(TextCell(s + [','] + h)) == GroupHours(TextCell(s))
  {
    AppendItem(s, h);
    GroupHoursText(s);
  }

  /**
   A day item (its text before the first colon is a week day in any letter case)
   sets that day's hours to the text after the colon: a day seen before keeps its
   position and only its hours change; a new day goes at the end.
   */
  lemma DayItemSetsHours(s: string, h: string)
    requires ',' !in h && IsDayItem(Strip(h))
    ensures var before := GroupHours(TextCell(s));
            var after := GroupHours(TextCell(s + [','] + h));
            var d := DayKey(Strip(h));
            var v := After(Strip(h), ':');
            && (HasKey(before, d) ==> after == before[IndexOf(before, d) := Entry(d, v)])
            && (!HasKey(before, d) ==> after == before + [Entry(d, v)])
  {
    AppendItem(s, h);
    GroupHoursText(s);
  }

  /**
   An item with a colon that is not a day item is appended, as ", " + item, to
   the hours of the last day seen; before any day it is dropped.
   */
  lemma ContinuationExtendsLastDay(s: string, h: string)
    requires ',' !in h && ':' in Strip(h) && !IsDayItem(Strip(h))
    ensures var before := GroupHours(TextCell(s));
            var after := GroupHours(TextCell(s + [','] + h));
            match LastDay(Items(s))
            case None => after == before
            case Some(d) =>
              && HasKey(before, d)
              && after == before[IndexOf(before, d) :=
                   Entry(d, before[IndexOf(before, d)].value + ", " + Strip(h))]
  {
    AppendItem(s, h);
    GroupHoursText(s);
    RunCurrentDay(Items(s));
  }

  /**
   The list-column rule of the loader: a non-string or "no_disponible" cell is
   the empty list; any other text is split on every comma, without stripping.
   */
  function SplitListCell(cell: Cell): (r: seq<string>)
    ensures cell.OtherCell? || cell.s == NotAvailable ==> r == []
    ensures cell.TextCell? && cell.s != NotAvailable ==>
              && Join(r, ',') == cell.s
              && |r| == Occurrences(cell.s, ',') + 1
              && forall i :: 0 <= i < |r| ==> ',' !in r[i]
  {
    if cell.TextCell? && cell.s != NotAvailable then
      JoinSplit(cell.s, ',');
      SplitCount(cell.s, ',');
      Split(cell.s, ',')
    else []
  }
}
