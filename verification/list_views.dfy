/**
  The list pages' own filtering: the issue and representative pages fetch
  the unfiltered list and filter it in the browser; the interaction page
  turns a period choice into a date window for the server.
 */
module ListViews {
  import opened Results
  import opened Store
  import opened Schema
  import opened Text
  import opened Access
  import opened Issues
  import opened Representatives
  import opened Interactions

  /** A select box with an "all" entry. */
  datatype Choice<T> = All | Only(value: T)

  /** The choice as an optional server filter. */
  function Chosen<T>(c: Choice<T>): (r: Option<T>)
    ensures r.None? <==> c.All?
    ensures c.Only? ==> r == Some(c.value)
  {
    match c
    case All => None
    case Only(v) => Some(v)
  }

  /** Filtering keeps a subsequence of what it was given. */
  lemma {:induction false} FilterSubsequence<R>(s: seq<Doc<R>>, q: R -> bool)
    ensures Subsequence(Filter(s, q), s)
  {
    if s != [] {
      FilterSubsequence(s[1..], q);
      var rest := Filter(s[1..], q);
      if q(s[0].value) {
        assert Filter(s, q)[1..] == rest;
      } else {
        assert Filter(s, q) == rest;
      }
    }
  }

  // ---------------------------------------------------------------------
  // The issue page

  function IssueShown(status: Choice<IssueStatus>, priority: Choice<Priority>): Issue -> bool {
    (r: Issue) => (status.All? || r.status == status.value) && (priority.All? || r.priority == priority.value)
  }

  /** `filteredIssues`: the fetched issues whose status and priority agree with the selects. */
  function FilteredIssues(issues: seq<Doc<Issue>>, status: Choice<IssueStatus>, priority: Choice<Priority>)
    : (r: seq<Doc<Issue>>)
    ensures forall d :: d in r <==> d in issues && IssueMatches(IssueFilters(Chosen(status), Chosen(priority)), d.value)
    ensures Subsequence(r, issues)
    ensures status.All? && priority.All? ==> r == issues
  {
    var q := IssueShown(status, priority);
    FilterMembers(issues, q);
    FilterSubsequence(issues, q);
    assert status.All? && priority.All? ==> Filter(issues, q) == issues by {
      if status.All? && priority.All? {
        FilterIdle(issues, q);
      }
    }
    Filter(issues, q)
  }

  /** Filtering the full list in the browser shows what the server's own filters would return. */
  lemma FilteredIssuesMatchServer(db: Db, identity: Option<Identity>, status: Choice<IssueStatus>, priority: Choice<Priority>)
    requires ResolveCaller(db.users, identity).Ok?
    ensures FilteredIssues(ListMyIssues(db, identity, IssueFilters(None, None)).value, status, priority) ==
            ListMyIssues(db, identity, IssueFilters(Chosen(status), Chosen(priority))).value
  {
    var all := ListMyIssues(db, identity, IssueFilters(None, None)).value;
    var f := IssueFilters(Chosen(status), Chosen(priority));
    ListMyIssuesExact(db, identity, IssueFilters(None, None));
    ListMyIssuesExact(db, identity, f);
    FilterKeepsCreationOrder(all, IssueShown(status, priority));
    CreationOrderUnique(FilteredIssues(all, status, priority), ListMyIssues(db, identity, f).value);
  }

  // ---------------------------------------------------------------------
  // The representative page

  function RepresentativeShown(level: Choice<Level>): Representative -> bool {
    (r: Representative) => level.All? || r.level == level.value
  }

  /** `filteredRepresentatives`: the fetched representatives at the selected level. */
  function FilteredRepresentatives(representatives: seq<Doc<Representative>>, level: Choice<Level>)
    : (r: seq<Doc<Representative>>)
    ensures forall d :: d in r <==> d in representatives && (level.Only? ==> d.value.level == level.value)
    ensures Subsequence(r, representatives)
    ensures level.All? ==> r == representatives
  {
    var q := RepresentativeShown(level);
    FilterMembers(representatives, q);
    FilterSubsequence(representatives, q);
    assert level.All? ==> Filter(representatives, q) == representatives by {
      if level.All? {
        FilterIdle(representatives, q);
      }
    }
    Filter(representatives, q)
  }

  /** Filtering the full list in the browser shows what the server's level filter would return. */
  lemma FilteredRepresentativesMatchServer(db: Db, identity: Option<Identity>, level: Choice<Level>)
    requires ResolveCaller(db.users, identity).Ok?
    ensures FilteredRepresentatives(ListMyRepresentatives(db, identity, RepresentativeFilters(None, None)).value, level) ==
            ListMyRepresentatives(db, identity, RepresentativeFilters(Chosen(level), None)).value
  {
    var all := ListMyRepresentatives(db, identity, RepresentativeFilters(None, None)).value;
    var f := RepresentativeFilters(Chosen(level), None);
    ListMyRepresentativesExact(db, identity, RepresentativeFilters(None, None));
    ListMyRepresentativesExact(db, identity, f);
    FilterKeepsCreationOrder(all, RepresentativeShown(level));
    CreationOrderUnique(FilteredRepresentatives(all, level), ListMyRepresentatives(db, identity, f).value);
  }

  // ---------------------------------------------------------------------
  // The interaction page

  /** The period select of the interaction page. */
  datatype Period = AllTime | Week | Month | Year

  /** How many days back a period reaches. */
  function DaysBack(p: Period): nat {
    match p
    case AllTime => 0
    case Week => 7
    case Month => 30
    case Year => 365
  }

  /**
    `handleDateRangeChange`: the last 7, 30 or 365 days up to now, or no
    window for "all".
   */
  function DateWindow(p: Period, now: int): (r: Option<DateRange>)
    ensures r.None? <==> p == AllTime
    ensures r.Some? ==> r.value.end == now && r.value.start <= r.value.end
    ensures r.Some? ==> now - r.value.start == DaysBack(p) * DayMillis
  {
    match p
    case AllTime => None
    case Week => Some(DateRange(now - 7 * DayMillis, now))
    case Month => Some(DateRange(now - 30 * DayMillis, now))
    case Year => Some(DateRange(now - 365 * DayMillis, now))
  }

  /** The page's query: the window alone, no representative or issue filter. */
  function PeriodFilters(p: Period, now: int): InteractionFilters {
    InteractionFilters(None, None, DateWindow(p, now))
  }

  /**
    The page lists exactly the caller's interactions dated within the chosen
    number of days before now, both ends included, newest first.
   */
  lemma PeriodListing(db: Db, identity: Option<Identity>, p: Period, now: int)
    requires ResolveCaller(db.users, identity).Ok?
    ensures ListMyInteractions(db, identity, PeriodFilters(p, now)).Ok?
    ensures forall d :: d in ListMyInteractions(db, identity, PeriodFilters(p, now)).value <==>
      && Stored(db.interactions, d)
      && d.value.userId == ResolveCaller(db.users, identity).value
      && (p != AllTime ==> now - DaysBack(p) * DayMillis <= d.value.date <= now)
    ensures Descending(ListMyInteractions(db, identity, PeriodFilters(p, now)).value, InteractionDate)
  {
    ListMyInteractionsExact(db, identity, PeriodFilters(p, now));
  }

  /** A longer period lists everything a shorter one does. */
  lemma PeriodsNest(db: Db, identity: Option<Identity>, shorter: Period, longer: Period, now: int)
    requires ResolveCaller(db.users, identity).Ok?
    requires longer == AllTime || (shorter != AllTime && DaysBack(shorter) <= DaysBack(longer))
    ensures forall d | d in ListMyInteractions(db, identity, PeriodFilters(shorter, now)).value ::
      d in ListMyInteractions(db, identity, PeriodFilters(longer, now)).value
  {
    PeriodListing(db, identity, shorter, now);
    PeriodListing(db, identity, longer, now);
    assert DaysBack(shorter) * DayMillis <= DaysBack(longer) * DayMillis || longer == AllTime;
  }
}
