/** The user's television series, kept in name order, and the television
    page's status filters, orderings and name search over them. */
module Media {
  import opened Seqs
  import opened Sorting
  import opened Text

  datatype SeriesStatus = Airing | Ended | Hiatus | Nope

  /** The fields of a series the list and the page read. The day is the day
      of the week it airs (Sunday = 0) and the time its minute of the day. */
  datatype Series = Series(name: string, status: SeriesStatus, day: int, time: int)

  // ---------------------------------------------------------------------------
  // Name order

  /** OrderBy(Name). */
  predicate NameLe(a: Series, b: Series)
  {
    StrLe(a.name, b.name)
  }

  predicate ByName(s: seq<Series>)
  {
    forall i, j :: 0 <= i < j < |s| ==> StrLe(s[i].name, s[j].name)
  }

  function SortSeries(s: seq<Series>): seq<Series>
  {
    SortBy(s, NameLe)
  }

  lemma NameLeTotalPreorder()
    ensures TotalPreorder(NameLe)
  {
    forall a: Series, b: Series
      ensures NameLe(a, b) || NameLe(b, a)
    {
      StrLeTotal(a.name, b.name);
    }
    forall a: Series, b: Series, c: Series | NameLe(a, b) && NameLe(b, c)
      ensures NameLe(a, c)
    {
      StrLeTransitive(a.name, b.name, c.name);
    }
  }

  /** Sorting by name rearranges the series into name order, and series of
      the same name keep the order they had. */
  lemma SortSeriesSpec(s: seq<Series>, y: Series)
    ensures multiset(SortSeries(s)) == multiset(s)
    ensures ByName(SortSeries(s))
    ensures Filter(SortSeries(s), EquivalentTo(NameLe, y)) == Filter(s, EquivalentTo(NameLe, y))
  {
    NameLeTotalPreorder();
    SortByPermutation(s, NameLe);
    SortBySorted(s, NameLe);
    SortByStable(s, NameLe, y);
    var r := SortSeries(s);
    forall i, j | 0 <= i < j < |r|
      ensures StrLe(r[i].name, r[j].name)
    {
      assert NameLe(r[i], r[j]);
    }
  }

  /** Deleting, which does not re-sort, takes one occurrence out and keeps a
      name-ordered list ordered. */
  lemma DeleteKeepsByName(s: seq<Series>, x: Series)
    ensures multiset(RemoveFirst(s, x)) == multiset(s) - multiset{x}
    ensures ByName(s) ==> ByName(RemoveFirst(s, x))
  {
    RemoveFirstCount(s, x);
    if x in s && ByName(s) {
      var r := RemoveFirst(s, x);
      assert SortedBy(s, NameLe);
      SortedRemoveAt(s, IndexOf(s, x), NameLe);
      assert SortedBy(r, NameLe);
      forall a, b | 0 <= a < b < |r|
        ensures StrLe(r[a].name, r[b].name)
      {
        assert NameLe(r[a], r[b]);
      }
    }
  }

  lemma ReplaceCount(s: seq<Series>, o: Series, n: Series)
    ensures o in s ==> multiset(ReplaceFirst(s, o, n)) == multiset(s) - multiset{o} + multiset{n}
    ensures o !in s ==> multiset(ReplaceFirst(s, o, n)) == multiset(s)
  {
    if o in s {
      var i := IndexOf(s, o);
      assert s == s[..i] + [s[i]] + s[i + 1..];
      assert s[i := n] == s[..i] + [n] + s[i + 1..];
    }
  }

  // ---------------------------------------------------------------------------
  // The series list

  class AllMedia {
    var allSeries: seq<Series>

    /** Starts from the given series, assigned as AssignSeries does. */
    constructor (series: seq<Series>)
      ensures allSeries == if |series| > 0 then SortSeries(series) else series
      ensures multiset(allSeries) == multiset(series) && ByName(allSeries)
    {
      SortSeriesSpec(series, Series("", Airing, 0, 0));
      allSeries := if |series| > 0 then SortSeries(series) else series;
    }

    /** Replaces the contents with a copy of the input, sorted by name unless
        it is empty. */
    method AssignSeries(series: seq<Series>)
      modifies this
      ensures allSeries == if |series| > 0 then SortSeries(series) else series
      ensures multiset(allSeries) == multiset(series) && ByName(allSeries)
    {
      allSeries := series;
      if |allSeries| > 0 {
        UpdateSeries();
      }
    }

    /** Adds the series, then re-sorts. */
    method AddSeries(newSeries: Series)
      modifies this
      ensures allSeries == SortSeries(old(allSeries) + [newSeries])
      ensures multiset(allSeries) == multiset(old(allSeries)) + multiset{newSeries} && ByName(allSeries)
      ensures |allSeries| == |old(allSeries)| + 1 && newSeries in allSeries
    {
      allSeries := allSeries + [newSeries];
      UpdateSeries();
      assert newSeries in multiset(allSeries);
    }

    /** Removes the first series equal to the given one, if any, without
        re-sorting. */
    method DeleteSeries(deleteSeries: Series)
      modifies this
      ensures allSeries == RemoveFirst(old(allSeries), deleteSeries)
      ensures multiset(allSeries) == multiset(old(allSeries)) - multiset{deleteSeries}
      ensures ByName(old(allSeries)) ==> ByName(allSeries)
    {
      DeleteKeepsByName(allSeries, deleteSeries);
      allSeries := RemoveFirst(allSeries, deleteSeries);
    }

    /** Replaces the first series equal to oldSeries by newSeries, then re-sorts. */
    method ModifySeries(oldSeries: Series, newSeries: Series)
      modifies this
      ensures allSeries == SortSeries(ReplaceFirst(old(allSeries), oldSeries, newSeries))
      ensures oldSeries in old(allSeries) ==>
        multiset(allSeries) == multiset(old(allSeries)) - multiset{oldSeries} + multiset{newSeries}
      ensures oldSeries !in old(allSeries) ==> multiset(allSeries) == multiset(old(allSeries))
      ensures |allSeries| == |old(allSeries)| && ByName(allSeries)
    {
      ReplaceCount(allSeries, oldSeries, newSeries);
      allSeries := ReplaceFirst(allSeries, oldSeries, newSeries);
      UpdateSeries();
    }

    /** Orders the list by name, stably. */
    method UpdateSeries()
      modifies this
      ensures allSeries == SortSeries(old(allSeries))
      ensures multiset(allSeries) == multiset(old(allSeries)) && ByName(allSeries)
    {
      SortSeriesSpec(allSeries, Series("", Airing, 0, 0));
      allSeries := SortSeries(allSeries);
    }
  }

  // ---------------------------------------------------------------------------
  // The television page

  /** The series of one status. */
  function StatusIs(st: SeriesStatus): Series -> bool
  {
    (x: Series) => x.status == st
  }

  /** OrderBy(Day).ThenBy(Time).ThenBy(Name). */
  predicate AiringLe(a: Series, b: Series)
  {
    a.day < b.day || (a.day == b.day && (a.time < b.time || (a.time == b.time && StrLe(a.name, b.name))))
  }

  /** The airing order stated directly: by day, then time, then name. */
  predicate InAiringOrder(s: seq<Series>)
  {
    forall i, j :: 0 <= i < j < |s| ==>
      s[i].day <= s[j].day &&
      (s[i].day == s[j].day ==> s[i].time <= s[j].time) &&
      (s[i].day == s[j].day && s[i].time == s[j].time ==> StrLe(s[i].name, s[j].name))
  }

  lemma AiringLeTotalPreorder()
    ensures TotalPreorder(AiringLe)
  {
    forall a: Series, b: Series
      ensures AiringLe(a, b) || AiringLe(b, a)
    {
      StrLeTotal(a.name, b.name);
    }
    forall a: Series, b: Series, c: Series | AiringLe(a, b) && AiringLe(b, c)
      ensures AiringLe(a, c)
    {
      if a.day == b.day == c.day && a.time == b.time == c.time {
        StrLeTransitive(a.name, b.name, c.name);
      }
    }
  }

  /** The radio buttons above the list. */
  datatype Radio = RadAll | RadAiring | RadEnded | RadHiatus | RadNope

  /** The list a radio button selects from all the series. */
  function RadioList(radio: Radio, all: seq<Series>): seq<Series>
  {
    match radio
    case RadAll => SortSeries(all)
    case RadAiring => SortBy(Filter(all, StatusIs(Airing)), AiringLe)
    case RadEnded => SortSeries(Filter(all, StatusIs(Ended)))
    case RadHiatus => SortSeries(Filter(all, StatusIs(Hiatus)))
    case RadNope => SortSeries(Filter(all, StatusIs(Nope)))
  }

  /** The status a radio button keeps, for the four status filters. */
  function RadioStatus(radio: Radio): SeriesStatus
    requires radio != RadAll
  {
    match radio
    case RadAiring => Airing
    case RadEnded => Ended
    case RadHiatus => Hiatus
    case RadNope => Nope
  }

  /** All shows every series by name; a status button shows exactly the
      series of its status, Airing ordered by day, time and name and the
      others by name. */
  lemma RadioListSpec(radio: Radio, all: seq<Series>)
    ensures radio == RadAll ==> multiset(RadioList(radio, all)) == multiset(all) && ByName(RadioList(radio, all))
    ensures radio != RadAll ==>
      multiset(RadioList(radio, all)) == multiset(Filter(all, StatusIs(RadioStatus(radio))))
    ensures radio == RadAiring ==> InAiringOrder(RadioList(radio, all))
    ensures radio != RadAll && radio != RadAiring ==> ByName(RadioList(radio, all))
  {
    var y := Series("", Airing, 0, 0);
    if radio == RadAiring {
      var s := Filter(all, StatusIs(Airing));
      AiringLeTotalPreorder();
      SortByPermutation(s, AiringLe);
      SortBySorted(s, AiringLe);
      var r := SortBy(s, AiringLe);
      forall i, j | 0 <= i < j < |r|
        ensures r[i].day <= r[j].day && (r[i].day == r[j].day ==> r[i].time <= r[j].time) &&
          (r[i].day == r[j].day && r[i].time == r[j].time ==> StrLe(r[i].name, r[j].name))
      {
        assert AiringLe(r[i], r[j]);
      }
    } else if radio == RadAll {
      SortSeriesSpec(all, y);
    } else {
      SortSeriesSpec(Filter(all, StatusIs(RadioStatus(radio))), y);
    }
  }

  /** A series is in a radio button's list exactly when it is among all the
      series and, for a status button, has that status. */
  lemma RadioListMembers(radio: Radio, all: seq<Series>, x: Series)
    ensures x in RadioList(radio, all) <==> x in all && (radio == RadAll || x.status == RadioStatus(radio))
  {
    RadioListSpec(radio, all);
    assert x in RadioList(radio, all) <==> x in multiset(RadioList(radio, all));
    if radio != RadAll {
      FilterMembership(all, StatusIs(RadioStatus(radio)), x);
      assert x in Filter(all, StatusIs(RadioStatus(radio))) <==> x in multiset(Filter(all, StatusIs(RadioStatus(radio))));
    }
  }

  /** Series whose name contains the text, ignoring case
      (IndexOf with InvariantCultureIgnoreCase, at least 0). */
  function NameContains(text: string): Series -> bool
  {
    (x: Series) => ContainsIgnoreCase(x.name, text)
  }

  /** RefreshItemsSource: with search text, the series (all of them when "All"
      is ticked, else the given list) whose names contain it, by name;
      without search text, the given list as it is. */
  function Shown(text: string, allTicked: bool, all: seq<Series>, refresh: seq<Series>): seq<Series>
  {
    if |text| > 0 then SortSeries(Filter(if allTicked then all else refresh, NameContains(text)))
    else refresh
  }

  /** Without search text the list is shown unchanged; with it, exactly the
      matching series of the source are shown, in name order. */
  lemma ShownSpec(text: string, allTicked: bool, all: seq<Series>, refresh: seq<Series>, x: Series)
    ensures text == [] ==> Shown(text, allTicked, all, refresh) == refresh
    ensures text != [] ==> ByName(Shown(text, allTicked, all, refresh))
    ensures text != [] ==>
      (x in Shown(text, allTicked, all, refresh) <==>
        x in (if allTicked then all else refresh) && ContainsIgnoreCase(x.name, text))
  {
    if text != [] {
      var src := if allTicked then all else refresh;
      SortSeriesSpec(Filter(src, NameContains(text)), x);
      FilterMembership(src, NameContains(text), x);
      assert x in SortSeries(Filter(src, NameContains(text))) <==> x in multiset(SortSeries(Filter(src, NameContains(text))));
    }
  }

  class TelevisionPage {
    /** The series the list view shows. */
    var series: seq<Series>

    constructor ()
      ensures series == []
    {
      series := [];
    }

    method RefreshItemsSource(text: string, allTicked: bool, all: seq<Series>, refresh: seq<Series>)
      modifies this
      ensures series == Shown(text, allTicked, all, refresh)
    {
      if |text| > 0 {
        series := if allTicked then all else refresh;
        series := SortSeries(Filter(series, NameContains(text)));
      } else {
        series := refresh;
      }
    }

    /** CheckRadio: the checked button's list, passed through the search. */
    method CheckRadio(radio: Radio, text: string, allTicked: bool, all: seq<Series>)
      modifies this
      ensures series == Shown(text, allTicked, all, RadioList(radio, all))
    {
      series := RadioList(radio, all);
      RefreshItemsSource(text, allTicked, all, series);
    }
  }

  /** Whatever button and search are applied, the page only shows series
      the user has. */
  lemma PageShowsOnlyKnownSeries(radio: Radio, text: string, allTicked: bool, all: seq<Series>, x: Series)
    requires x in Shown(text, allTicked, all, RadioList(radio, all))
    ensures x in all
  {
    RadioListMembers(radio, all, x);
    ShownSpec(text, allTicked, all, RadioList(radio, all), x);
  }
}
