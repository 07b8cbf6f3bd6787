/** The read-only answers of the local ledger: the dates offered for booking,
    a user's bookings, the quota summary and the statistics, as functions of
    the bookings and the quota table, with what the program promises of them. */
module LedgerViews {
  import opened Wrappers
  import opened Text
  import opened Calendar
  import opened Api
  import opened Sets
  import opened LedgerSpec

  // ---------------------------------------------------------------- available dates

  /** The clock reading `today` (an ordinal) leaves room for the 30 days ahead. */
  predicate ValidToday(today: int) {
    1 <= today && today + 30 <= MaxOrdinal
  }

  /** `day_of_week in self.quotas and any(quota > 0 for quota in ...)`. */
  predicate HasQuota(q: QuotaTable, day: string) {
    day in q && exists g :: g in q[day] && q[day][g] > 0
  }

  /** The days `from .. to - 1` whose weekday has quota, in increasing order. */
  function QualifyingDays(q: QuotaTable, from: int, to: int): seq<int>
    decreases to - from
  {
    if to <= from then []
    else QualifyingDays(q, from, to - 1) + (if HasQuota(q, DayName(to - 1)) then [to - 1] else [])
  }

  /** The scanned days are exactly the days of the range whose weekday has
      quota, each once and in increasing order. */
  lemma {:induction false} QualifyingDaysExact(q: QuotaTable, from: int, to: int)
    decreases to - from
    ensures forall i :: 0 <= i < |QualifyingDays(q, from, to)| ==>
      from <= QualifyingDays(q, from, to)[i] < to && HasQuota(q, DayName(QualifyingDays(q, from, to)[i]))
    ensures forall i, j :: 0 <= i < j < |QualifyingDays(q, from, to)| ==>
      QualifyingDays(q, from, to)[i] < QualifyingDays(q, from, to)[j]
    ensures forall n :: from <= n < to && HasQuota(q, DayName(n)) ==> n in QualifyingDays(q, from, to)
  {
    if to > from {
      QualifyingDaysExact(q, from, to - 1);
      var init := QualifyingDays(q, from, to - 1);
      var r := QualifyingDays(q, from, to);
      assert r == init + (if HasQuota(q, DayName(to - 1)) then [to - 1] else []);
      assert forall i :: 0 <= i < |init| ==> r[i] == init[i];
      forall i | 0 <= i < |r| ensures from <= r[i] < to && HasQuota(q, DayName(r[i])) {
        if i < |init| {
          assert r[i] == init[i];
        }
      }
      forall n | from <= n < to && HasQuota(q, DayName(n)) ensures n in r {
        if n < to - 1 {
          var i :| 0 <= i < |init| && init[i] == n;
          assert r[i] == n;
        } else {
          assert r[|r| - 1] == n;
        }
      }
    }
  }

  /** The first `k` elements, all of them when there are fewer, none when `k <= 0`. */
  function Take(s: seq<int>, k: int): seq<int> {
    if k <= 0 then [] else if k >= |s| then s else s[..k]
  }

  /** The entry `get_available_dates` lists for a day. */
  function DateInfoOf(n: int): DateInfo
    requires 1 <= n <= MaxOrdinal
  {
    DateInfo(n, FormatDate(n), DayName(n), DisplayDate(n), Prefix3(DayName(n)))
  }

  /** The days `get_available_dates` lists: the first `maxShow` of the next
      thirty days whose weekday has quota. */
  function OfferedDays(q: QuotaTable, today: int, maxShow: int): seq<int> {
    Take(QualifyingDays(q, today + 1, today + 31), maxShow)
  }

  /** The entries of a list of days, in order. */
  function DateInfos(days: seq<int>): (r: seq<DateInfo>)
    requires forall i :: 0 <= i < |days| ==> 1 <= days[i] <= MaxOrdinal
    ensures |r| == |days|
  {
    if days == [] then [] else DateInfos(days[..|days| - 1]) + [DateInfoOf(days[|days| - 1])]
  }

  lemma {:induction false} DateInfosAt(days: seq<int>)
    requires forall i :: 0 <= i < |days| ==> 1 <= days[i] <= MaxOrdinal
    ensures forall i :: 0 <= i < |days| ==> DateInfos(days)[i] == DateInfoOf(days[i])
  {
    if days != [] {
      var init := days[..|days| - 1];
      DateInfosAt(init);
      var r := DateInfos(days);
      assert r == DateInfos(init) + [DateInfoOf(days[|days| - 1])];
      forall i | 0 <= i < |days| ensures r[i] == DateInfoOf(days[i]) {
        if i < |days| - 1 {
          assert r[i] == DateInfos(init)[i] && init[i] == days[i];
        }
      }
    }
  }

  function AvailableDatesSpec(q: QuotaTable, today: int, maxShow: int): seq<DateInfo>
    requires ValidToday(today)
  {
    OfferedDaysInRange(q, today, maxShow);
    DateInfos(OfferedDays(q, today, maxShow))
  }

  /** The qualifying days up to `m` are a prefix of those up to any later day. */
  lemma {:induction false} QualifyingPrefix(q: QuotaTable, from: int, m: int, k: nat)
    ensures var a := QualifyingDays(q, from, m);
      var c := QualifyingDays(q, from, m + k);
      |a| <= |c| && c[..|a|] == a
  {
    if k > 0 {
      QualifyingPrefix(q, from, m, k - 1);
      var c1 := QualifyingDays(q, from, m + k - 1);
      var c := QualifyingDays(q, from, m + k);
      if m + k > from {
        assert c[..|c1|] == c1;
      }
    }
  }

  /** One more day of scanning appends that day when its weekday has quota. */
  lemma QualifyingStep(q: QuotaTable, from: int, to: int)
    requires from <= to
    ensures QualifyingDays(q, from, to + 1) == QualifyingDays(q, from, to) + (if HasQuota(q, DayName(to)) then [to] else [])
  {
  }

  /** A scan of the days `today + 1 .. today + i - 1` that stops once `maxShow`
      days are found, or after the thirtieth, has found the offered days. */
  lemma ScanFindsOfferedDays(q: QuotaTable, today: int, maxShow: int, i: int, days: seq<int>)
    requires 1 <= i <= 31
    requires days == QualifyingDays(q, today + 1, today + i)
    requires |days| <= Max0(maxShow)
    requires i == 31 || |days| >= maxShow
    ensures days == OfferedDays(q, today, maxShow)
  {
    QualifyingPrefix(q, today + 1, today + i, 31 - i);
    assert today + i + (31 - i) == today + 31;
    TakeOfPrefix(QualifyingDays(q, today + 1, today + 31), days, maxShow);
  }

  lemma TakeOfPrefix(s: seq<int>, a: seq<int>, k: int)
    requires |a| <= |s| && s[..|a|] == a && |a| <= Max0(k)
    requires a == s || |a| >= k
    ensures a == Take(s, k)
  {
  }

  lemma TakePrefix(s: seq<int>, k: int)
    ensures var t := Take(s, k);
      |t| <= Max0(k) && |t| <= |s| && t == s[..|t|] && (|t| < k ==> t == s)
  {
  }

  lemma OfferedNoSkip(q: QuotaTable, today: int, maxShow: int, n: int, i: int)
    requires var days := OfferedDays(q, today, maxShow);
      0 <= i < |days| && today + 1 <= n < days[i] && HasQuota(q, DayName(n))
    ensures var days := OfferedDays(q, today, maxShow); n in days[..i]
  {
    var all := QualifyingDays(q, today + 1, today + 31);
    var days := OfferedDays(q, today, maxShow);
    QualifyingDaysExact(q, today + 1, today + 31);
    TakePrefix(all, maxShow);
    assert days[i] == all[i];
    var j :| 0 <= j < |all| && all[j] == n;
    assert days[..i][j] == n;
  }

  /** The offered days are the first `maxShow` qualifying days of the next thirty. */
  lemma OfferedDaysAnswer(q: QuotaTable, today: int, maxShow: int)
    ensures var days := OfferedDays(q, today, maxShow);
      && |days| <= Max0(maxShow)
      && (forall i :: 0 <= i < |days| ==> today + 1 <= days[i] <= today + 30 && HasQuota(q, DayName(days[i])))
      && (forall i, j :: 0 <= i < j < |days| ==> days[i] < days[j])
      && (forall n, i :: 0 <= i < |days| && today + 1 <= n < days[i] && HasQuota(q, DayName(n)) ==>
            n in days[..i])
      && (|days| < maxShow ==> forall n :: today + 1 <= n <= today + 30 && HasQuota(q, DayName(n)) ==>
            n in days)
  {
    var all := QualifyingDays(q, today + 1, today + 31);
    var days := OfferedDays(q, today, maxShow);
    QualifyingDaysExact(q, today + 1, today + 31);
    TakePrefix(all, maxShow);
    assert forall i :: 0 <= i < |days| ==> days[i] == all[i];
    forall n, i | 0 <= i < |days| && today + 1 <= n < days[i] && HasQuota(q, DayName(n))
      ensures n in days[..i]
    {
      OfferedNoSkip(q, today, maxShow, n, i);
    }
  }

  /** The part of the answer the rendering needs: how many days, and their range. */
  lemma OfferedDaysInRange(q: QuotaTable, today: int, maxShow: int)
    ensures |OfferedDays(q, today, maxShow)| <= Max0(maxShow)
    ensures forall i :: 0 <= i < |OfferedDays(q, today, maxShow)| ==>
      today + 1 <= OfferedDays(q, today, maxShow)[i] <= today + 30
  {
    var all := QualifyingDays(q, today + 1, today + 31);
    QualifyingDaysExact(q, today + 1, today + 31);
    TakePrefix(all, maxShow);
  }

  /** What `get_available_dates` promises: at most `maxShow` dates within the
      next thirty days, in increasing order, each on a weekday that has quota
      and rendered as that day; no qualifying day is skipped before the last
      one listed, and when fewer than `maxShow` are listed every qualifying
      day is. Each listed date reads back to its day. */
  lemma AvailableDatesAnswer(q: QuotaTable, today: int, maxShow: int)
    requires ValidToday(today)
    ensures var ds := AvailableDatesSpec(q, today, maxShow);
      var days := OfferedDays(q, today, maxShow);
      && |ds| == |days| <= Max0(maxShow)
      && (forall i :: 0 <= i < |days| ==> today + 1 <= days[i] <= today + 30)
      && (forall i :: 0 <= i < |ds| ==>
            && ds[i] == DateInfoOf(days[i])
            && ds[i].ordinal == days[i]
            && ParseDate(ds[i].date) == Some(days[i]))
  {
    var days := OfferedDays(q, today, maxShow);
    OfferedDaysInRange(q, today, maxShow);
    DateInfosAt(days);
    forall i | 0 <= i < |days| ensures ParseDate(FormatDate(days[i])) == Some(days[i]) {
      ParseFormatDate(days[i]);
    }
  }

  lemma DefaultDaysHaveQuota(day: string)
    requires day in DayNames
    ensures HasQuota(DefaultQuotas(), day)
  {
    assert "A+" in BloodGroups;
    assert DefaultQuotas()[day]["A+"] > 0;
  }

  /** With the default table every weekday has quota, so the offered days are
      simply tomorrow onwards, `min(maxShow, 30)` of them. */
  lemma DefaultQuotasOfferConsecutiveDays(today: int, maxShow: int)
    ensures var days := OfferedDays(DefaultQuotas(), today, maxShow);
      && |days| == (if maxShow <= 0 then 0 else if maxShow >= 30 then 30 else maxShow)
      && (forall i :: 0 <= i < |days| ==> days[i] == today + 1 + i)
  {
    forall n ensures HasQuota(DefaultQuotas(), DayName(n)) {
      assert DayName(n) == DayNames[Weekday(n)];
      DefaultDaysHaveQuota(DayName(n));
    }
    ConsecutiveQualifying(DefaultQuotas(), today + 1, 30);
    var all := QualifyingDays(DefaultQuotas(), today + 1, today + 31);
    assert all == Range(today + 1, 30);
    TakePrefix(all, maxShow);
  }

  /** The days `from, from + 1, ..., from + k - 1`. */
  function Range(from: int, k: nat): (r: seq<int>)
    ensures |r| == k && forall i :: 0 <= i < k ==> r[i] == from + i
  {
    if k == 0 then [] else Range(from, k - 1) + [from + k - 1]
  }

  lemma {:induction false} ConsecutiveQualifying(q: QuotaTable, from: int, k: nat)
    requires forall n :: HasQuota(q, DayName(n))
    ensures QualifyingDays(q, from, from + k) == Range(from, k)
  {
    if k > 0 {
      ConsecutiveQualifying(q, from, k - 1);
      assert HasQuota(q, DayName(from + k - 1));
    }
  }

  // ---------------------------------------------------------------- a user's bookings

  /** `get_user_bookings` lists the user's bookings, one per booked date, and
      nothing for a user without bookings. The order (the dictionary's
      insertion order) is left open. */
  ghost predicate ListsBookingsOf(b: Bookings, user: int, list: seq<Booking>) {
    if user !in b then list == []
    else
      && |list| == |b[user]|
      && (forall i :: 0 <= i < |list| ==> list[i].date in b[user] && list[i] == b[user][list[i].date])
      && (forall i, j :: 0 <= i < j < |list| ==> list[i].date != list[j].date)
  }

  /** Such a list shows every booking of the user exactly once. */
  lemma ListedBookingsCoverAll(b: Bookings, user: int, list: seq<Booking>)
    requires ListsBookingsOf(b, user, list)
    ensures forall bk :: bk in list ==> user in b && bk.date in b[user] && b[user][bk.date] == bk
    ensures user in b ==> forall d :: d in b[user] ==> exists i :: 0 <= i < |list| && list[i].date == d
    ensures user in b ==> |list| == |b[user]|
  {
    if user in b {
      var listed := set i | 0 <= i < |list| :: list[i].date;
      DistinctImageCard(list);
      assert listed <= b[user].Keys;
      if listed != b[user].Keys {
        var d :| d in b[user].Keys && d !in listed;
        SubsetCard(listed, b[user].Keys - {d});
        assert false;
      }
    }
  }

  lemma {:induction false} DistinctImageCard(list: seq<Booking>)
    requires forall i, j :: 0 <= i < j < |list| ==> list[i].date != list[j].date
    ensures |set i | 0 <= i < |list| :: list[i].date| == |list|
  {
    if list != [] {
      var init := list[..|list| - 1];
      DistinctImageCard(init);
      var s := set i | 0 <= i < |list| :: list[i].date;
      var t := set i | 0 <= i < |init| :: init[i].date;
      assert s == t + {list[|list| - 1].date} by {
        forall x | x in s ensures x in t + {list[|list| - 1].date} {
          var i :| 0 <= i < |list| && list[i].date == x;
          if i < |init| { assert init[i].date == x; }
        }
      }
      assert list[|list| - 1].date !in t;
    }
  }

  // ---------------------------------------------------------------- counting bookings

  /** A stored booking, named by its user and date. */
  type Entry = (int, string)

  /** The bookings of the users in `users`. */
  function EntriesOf(b: Bookings, users: set<int>): set<Entry> {
    set u, d | u in users && u in b && d in b[u] :: (u, d)
  }

  function Entries(b: Bookings): set<Entry> {
    EntriesOf(b, b.Keys)
  }

  /** The weekday `strptime` gives a stored date; never the empty name for the
      dates the invariant admits. */
  function KeyDay(d: string): string {
    match ParseDate(d)
    case Some(n) => DayName(n)
    case None => ""
  }

  /** The two groupings of `get_stats`. */
  datatype Facet = ByWeekday | ByBloodGroup

  function FacetOf(b: Bookings, f: Facet, e: Entry): string {
    if e.0 in b && e.1 in b[e.0] then
      match f
      case ByWeekday => KeyDay(e.1)
      case ByBloodGroup => b[e.0][e.1].bloodGroup
    else ""
  }

  /** How many entries of `es` fall in group `k`. */
  function Count(b: Bookings, f: Facet, es: set<Entry>, k: string): int {
    |set e | e in es && FacetOf(b, f, e) == k|
  }

  /** The groups that occur among `es`. */
  function Groups(b: Bookings, f: Facet, es: set<Entry>): set<string> {
    set e | e in es :: FacetOf(b, f, e)
  }

  /** `day_stats` / `blood_group_stats`: one key per group that occurs, with its count. */
  function Histogram(b: Bookings, f: Facet, es: set<Entry>): map<string, int> {
    map k | k in Groups(b, f, es) :: Count(b, f, es, k)
  }

  lemma CountAdd(b: Bookings, f: Facet, es: set<Entry>, e: Entry, k: string)
    requires e !in es
    ensures Count(b, f, es + {e}, k) == Count(b, f, es, k) + (if FacetOf(b, f, e) == k then 1 else 0)
  {
    var before := set x | x in es && FacetOf(b, f, x) == k;
    var after := set x | x in es + {e} && FacetOf(b, f, x) == k;
    if FacetOf(b, f, e) == k {
      assert after == before + {e};
    } else {
      assert after == before;
    }
  }

  lemma CountAbsent(b: Bookings, f: Facet, es: set<Entry>, k: string)
    requires k !in Groups(b, f, es)
    ensures Count(b, f, es, k) == 0
  {
    assert (set x | x in es && FacetOf(b, f, x) == k) == {};
  }

  lemma GroupsAdd(b: Bookings, f: Facet, es: set<Entry>, e: Entry)
    ensures Groups(b, f, es + {e}) == Groups(b, f, es) + {FacetOf(b, f, e)}
  {
  }

  /** Counting one more entry adds one to its group, creating the group at 1. */
  lemma HistogramAdd(b: Bookings, f: Facet, es: set<Entry>, e: Entry)
    requires e !in es
    ensures var h := Histogram(b, f, es);
      var k := FacetOf(b, f, e);
      Histogram(b, f, es + {e}) == h[k := (if k in h then h[k] else 0) + 1]
  {
    var h := Histogram(b, f, es);
    var k := FacetOf(b, f, e);
    var h2 := Histogram(b, f, es + {e});
    var expected := h[k := (if k in h then h[k] else 0) + 1];
    GroupsAdd(b, f, es, e);
    assert h.Keys == Groups(b, f, es);
    assert h2.Keys == Groups(b, f, es + {e});
    assert h2.Keys == expected.Keys;
    forall k2 | k2 in h2 ensures h2[k2] == expected[k2] {
      CountAddAt(b, f, es, e, k2);
    }
  }

  /** `CountAdd` as the histogram sees it, a group absent before counting 0. */
  lemma CountAddAt(b: Bookings, f: Facet, es: set<Entry>, e: Entry, k: string)
    requires e !in es
    ensures Count(b, f, es + {e}, k) ==
      (if k in Groups(b, f, es) then Count(b, f, es, k) else 0) + (if FacetOf(b, f, e) == k then 1 else 0)
  {
    CountAdd(b, f, es, e, k);
    if k !in Groups(b, f, es) {
      CountAbsent(b, f, es, k);
    }
  }

  lemma SplitByGroup(b: Bookings, f: Facet, es: set<Entry>, keys: set<string>, k: string)
    requires k in keys
    ensures (set e | e in es && FacetOf(b, f, e) in keys) ==
      (set e | e in es && FacetOf(b, f, e) == k) + (set e | e in es && FacetOf(b, f, e) in keys - {k})
    ensures (set e | e in es && FacetOf(b, f, e) == k) !! (set e | e in es && FacetOf(b, f, e) in keys - {k})
  {
  }

  /** The counts of a grouping add up, over any set of groups, to the number
      of entries in those groups. */
  lemma {:induction false} SumOfCounts(b: Bookings, f: Facet, es: set<Entry>, m: map<string, int>, keys: set<string>)
    requires keys <= m.Keys
    requires forall k :: k in keys ==> m[k] == Count(b, f, es, k)
    ensures SumOver(m, keys) == |set e | e in es && FacetOf(b, f, e) in keys|
    decreases keys
  {
    if keys == {} {
      assert (set e | e in es && FacetOf(b, f, e) in keys) == {};
    } else {
      var k := Pick(keys);
      SumOverRemove(m, keys, k);
      SumOfCounts(b, f, es, m, keys - {k});
      SplitByGroup(b, f, es, keys, k);
    }
  }

  /** Every entry is counted once: the counts of a histogram add up to the number of entries. */
  lemma HistogramTotal(b: Bookings, f: Facet, es: set<Entry>)
    ensures var h := Histogram(b, f, es); SumOver(h, h.Keys) == |es|
  {
    var h := Histogram(b, f, es);
    assert h.Keys == Groups(b, f, es);
    assert forall k :: k in h.Keys ==> h[k] == Count(b, f, es, k);
    SumOfCounts(b, f, es, h, h.Keys);
    var counted := set e | e in es && FacetOf(b, f, e) in h.Keys;
    forall e | e in es ensures e in counted {
      assert FacetOf(b, f, e) in Groups(b, f, es);
    }
    assert counted == es;
  }

  /** The entries of user `u` on the dates `ds`. */
  function Pairs(u: int, ds: set<string>): set<Entry> {
    set d | d in ds :: (u, d)
  }

  lemma PairsAdd(u: int, ds: set<string>, d: string)
    ensures Pairs(u, ds + {d}) == Pairs(u, ds) + {(u, d)}
  {
  }

  /** One more occurrence of `k` in a histogram. */
  function Bump(h: map<string, int>, k: string): map<string, int> {
    h[k := (if k in h then h[k] else 0) + 1]
  }

  /** Counting one more of user `u`'s dates, `d`, bumps its group by one. */
  lemma HistogramStep(b: Bookings, f: Facet, base: set<Entry>, u: int, seen: set<string>, d: string)
    requires (u, d) !in base && d !in seen
    ensures Histogram(b, f, base + Pairs(u, seen + {d}))
      == Bump(Histogram(b, f, base + Pairs(u, seen)), FacetOf(b, f, (u, d)))
  {
    var es := base + Pairs(u, seen);
    HistogramAdd(b, f, es, (u, d));
    PairsAdd(u, seen, d);
    assert base + Pairs(u, seen + {d}) == es + {(u, d)};
  }

  /** Adding a user's bookings to those counted so far. */
  lemma EntriesOfAddUser(b: Bookings, users: set<int>, u: int)
    requires u in b && u !in users
    ensures EntriesOf(b, users + {u}) == EntriesOf(b, users) + Pairs(u, b[u].Keys)
    ensures EntriesOf(b, users) !! Pairs(u, b[u].Keys)
    ensures |Pairs(u, b[u].Keys)| == |b[u]|
  {
    var grown, before, mine := EntriesOf(b, users + {u}), EntriesOf(b, users), Pairs(u, b[u].Keys);
    forall e | e in grown ensures e in before + mine {
      if e.0 != u { assert e in before; }
    }
    forall e | e in before + mine ensures e in grown {
      if e in mine { assert e.0 == u && e.1 in b[u]; }
    }
    forall e | e in before ensures e !in mine {
      assert e.0 in users;
    }
    PairCard(u, b[u].Keys);
  }

  /** The number of bookings grows by the new user's. */
  lemma EntriesCountStep(b: Bookings, users: set<int>, u: int)
    requires u in b && u !in users
    ensures |EntriesOf(b, users + {u})| == |EntriesOf(b, users)| + |b[u]|
  {
    EntriesOfAddUser(b, users, u);
  }

  lemma {:induction false} PairCard(u: int, ds: set<string>)
    ensures |Pairs(u, ds)| == |ds|
    decreases ds
  {
    if ds != {} {
      var d := Pick(ds);
      PairCard(u, ds - {d});
      PairsAdd(u, ds - {d}, d);
      assert ds - {d} + {d} == ds;
    }
  }

  /** The `used` of a weekday in `get_quotas`: bookings on any date with that weekday. */
  function DayUsed(b: Bookings, day: string): int {
    Count(b, ByWeekday, Entries(b), day)
  }

  /** Per weekday of the table, the sum of its group quotas. */
  ghost function DayTotals(q: QuotaTable): map<string, int> {
    map day | day in q :: SumOver(q[day], q[day].Keys)
  }

  /** Per weekday of the table, the bookings on dates with that weekday. */
  function DayUsedMap(b: Bookings, q: QuotaTable): map<string, int> {
    map day | day in q :: DayUsed(b, day)
  }

  /** The two per-weekday maps hold, for each weekday of the table, its quota
      sum and its bookings. */
  lemma DayMapsAgree(b: Bookings, q: QuotaTable)
    ensures forall d :: d in q ==> d in DayTotals(q) && DayTotals(q)[d] == SumOver(q[d], q[d].Keys)
    ensures q.Keys <= DayUsedMap(b, q).Keys
    ensures forall d {:trigger DayUsed(b, d)} :: d in q ==> DayUsedMap(b, q)[d] == DayUsed(b, d)
  {
  }

  /** `get_quotas`: per weekday the sum of its group quotas, the bookings on
      dates with that weekday and the difference; and the totals over the weekdays. */
  ghost function QuotaSummaryOf(b: Bookings, q: QuotaTable): QuotaSummary {
    var totals := DayTotals(q);
    var used := DayUsedMap(b, q);
    var totalQuota := SumOver(totals, totals.Keys);
    var totalUsed := SumOver(used, used.Keys);
    QuotaSummary(totalQuota, totalUsed, totalQuota - totalUsed,
                 map day | day in q :: DayQuota(totals[day], used[day], totals[day] - used[day], q[day]))
  }

  /** What the `get_quotas` loop has built after visiting the weekdays `seen`,
      given each weekday's quota sum in `totals` and its bookings in `used`:
      the sums over those weekdays and their entries. */
  ghost predicate SummarizedSoFar(q: QuotaTable, totals: map<string, int>, used: map<string, int>,
                                  seen: set<string>, totalQuota: int, totalUsed: int,
                                  byDay: map<string, DayQuota>)
  {
    && seen <= q.Keys && seen <= totals.Keys && seen <= used.Keys
    && totalQuota == SumOver(totals, seen)
    && totalUsed == SumOver(used, seen)
    && byDay.Keys == seen
    && forall day :: day in seen ==> byDay[day] == DayQuota(totals[day], used[day], totals[day] - used[day], q[day])
  }

  /** Visiting one more weekday adds its entry and its two sums. */
  lemma SummarizedStep(q: QuotaTable, totals: map<string, int>, used: map<string, int>, day: string,
                       seen: set<string>, totalQuota: int, totalUsed: int, byDay: map<string, DayQuota>)
    requires day in q && day in totals && day in used && day !in seen
    requires SummarizedSoFar(q, totals, used, seen, totalQuota, totalUsed, byDay)
    ensures SummarizedSoFar(q, totals, used, seen + {day}, totalQuota + totals[day], totalUsed + used[day],
                            byDay[day := DayQuota(totals[day], used[day], totals[day] - used[day], q[day])])
  {
    SumOverRemove(totals, seen + {day}, day);
    SumOverRemove(used, seen + {day}, day);
    assert seen + {day} - {day} == seen;
  }

  /** Once every weekday of the table is visited, the summary is the one
      `QuotaSummaryOf` describes. */
  lemma SummaryFromDays(b: Bookings, q: QuotaTable, totalQuota: int, totalUsed: int, byDay: map<string, DayQuota>)
    requires SummarizedSoFar(q, DayTotals(q), DayUsedMap(b, q), q.Keys, totalQuota, totalUsed, byDay)
    ensures QuotaSummary(totalQuota, totalUsed, totalQuota - totalUsed, byDay) == QuotaSummaryOf(b, q)
  {
    var totals := DayTotals(q);
    var used := DayUsedMap(b, q);
    assert totals.Keys == q.Keys && used.Keys == q.Keys;
    var s := QuotaSummaryOf(b, q);
    assert s.totalQuota == totalQuota;
    assert s.totalUsed == totalUsed;
    assert s.byDay.Keys == byDay.Keys;
    forall day | day in q
      ensures s.byDay[day] == byDay[day]
    {
    }
    assert s.byDay == byDay;
  }

  /** When every stored date falls on a weekday of the table, the weekday
      counts add up to the number of bookings. */
  lemma UsedAddsUp(b: Bookings, q: QuotaTable)
    requires forall e :: e in Entries(b) ==> KeyDay(e.1) in q
    ensures var used := DayUsedMap(b, q); SumOver(used, used.Keys) == |Entries(b)|
  {
    var used := DayUsedMap(b, q);
    var es := Entries(b);
    SumOfCounts(b, ByWeekday, es, used, used.Keys);
    forall e | e in es ensures FacetOf(b, ByWeekday, e) in used.Keys {
      assert e.0 in b && e.1 in b[e.0];
    }
    assert (set e | e in es && FacetOf(b, ByWeekday, e) in used.Keys) == es;
  }

  /** When every stored date falls on a weekday of the table, `totalUsed` is the
      number of bookings; the weekday rows add up to the totals. */
  lemma QuotaSummaryCountsEachBooking(b: Bookings, q: QuotaTable)
    requires forall e :: e in Entries(b) ==> KeyDay(e.1) in q
    ensures var s := QuotaSummaryOf(b, q);
      && s.totalUsed == |Entries(b)|
      && s.remaining == s.totalQuota - s.totalUsed
      && s.byDay.Keys == q.Keys
      && (forall day :: day in s.byDay ==> s.byDay[day].remaining == s.byDay[day].total - s.byDay[day].used)
  {
    UsedAddsUp(b, q);
  }

  /** The base table sums to 53 places, the weekend table to 41. */
  lemma BloodGroupsDistinct()
    ensures forall i, j :: 0 <= i < j < |BloodGroups| ==> BloodGroups[i] != BloodGroups[j]
  {
  }

  lemma BaseSumInOrder()
    ensures SumSeq(BaseQuotas(), BloodGroups) == 53
  {
  }

  lemma WeekendSumInOrder()
    ensures SumSeq(WeekendQuotas(), BloodGroups) == 41
  {
  }

  lemma BaseSum()
    ensures SumOver(BaseQuotas(), BaseQuotas().Keys) == 53
  {
    BloodGroupsDistinct();
    BaseSumInOrder();
    SumSeqIsSumOverAll(BaseQuotas(), BloodGroups);
  }

  lemma WeekendSum()
    ensures SumOver(WeekendQuotas(), WeekendQuotas().Keys) == 41
  {
    BloodGroupsDistinct();
    WeekendSumInOrder();
    SumSeqIsSumOverAll(WeekendQuotas(), BloodGroups);
  }

  lemma DefaultDayTotals()
    ensures forall day :: day in DayTotals(DefaultQuotas()) ==>
      DayTotals(DefaultQuotas())[day] == if IsWeekend(day) then 41 else 53
  {
    BaseSum();
    WeekendSum();
  }

  lemma DayNamesDistinct()
    ensures forall i, j :: 0 <= i < j < |DayNames| ==> DayNames[i] != DayNames[j]
  {
  }

  lemma DefaultDayKeys()
    ensures forall i :: 0 <= i < |DayNames| ==> DayNames[i] in DayTotals(DefaultQuotas())
    ensures forall day :: day in DayTotals(DefaultQuotas()) ==> day in DayNames
  {
  }

  lemma DefaultTotalsSum()
    ensures SumOver(DayTotals(DefaultQuotas()), DayTotals(DefaultQuotas()).Keys) == 347
  {
    var totals := DayTotals(DefaultQuotas());
    DefaultDayTotals();
    DayNamesDistinct();
    DefaultDayKeys();
    SumSeqIsSumOverAll(totals, DayNames);
    assert totals[DayNames[0]] == 53 && totals[DayNames[1]] == 53 && totals[DayNames[2]] == 53;
    assert totals[DayNames[3]] == 53 && totals[DayNames[4]] == 53;
    assert totals[DayNames[5]] == 41 && totals[DayNames[6]] == 41;
    assert SumSeq(totals, DayNames) == 347;
  }

  /** With the default table there are 5 * 53 + 2 * 41 = 347 places a week. */
  lemma DefaultTotalQuota(b: Bookings)
    ensures QuotaSummaryOf(b, DefaultQuotas()).totalQuota == 347
  {
    DefaultTotalsSum();
  }

  // ---------------------------------------------------------------- statistics

  /** `max(stats.items(), key=...)[0] if stats else "нет данных"`: a group with
      the largest count (which of several is left open), or the placeholder. */
  predicate IsMostPopular(h: map<string, int>, k: string) {
    if h == map[] then k == "нет данных"
    else k in h && forall k2 :: k2 in h ==> h[k2] <= h[k]
  }

  /** What `get_stats` answers for the bookings and the quota table. */
  ghost predicate StatsOk(b: Bookings, q: QuotaTable, p: Payload) {
    && p.Stats?
    && p.totalBookings == |Entries(b)|
    && p.totalUsers == |b|
    && p.dayStats == Histogram(b, ByWeekday, Entries(b))
    && p.bloodGroupStats == Histogram(b, ByBloodGroup, Entries(b))
    && IsMostPopular(p.dayStats, p.mostPopularDay)
    && IsMostPopular(p.bloodGroupStats, p.mostPopularBloodGroup)
    && p.quotaStats == QuotaSummaryOf(b, q)
  }

  lemma WeekdayGroups(b: Bookings)
    requires WellFormed(b)
    ensures forall k :: k in Groups(b, ByWeekday, Entries(b)) ==> k in DayNames
  {
    forall k | k in Groups(b, ByWeekday, Entries(b)) ensures k in DayNames {
      var e :| e in Entries(b) && FacetOf(b, ByWeekday, e) == k;
      assert ParseDate(e.1).Some?;
    }
  }

  lemma NoGroupsWithoutEntries(b: Bookings, f: Facet, es: set<Entry>)
    ensures Groups(b, f, es) == {} <==> es == {}
  {
    if es != {} {
      var e := Pick(es);
      assert FacetOf(b, f, e) in Groups(b, f, es);
    }
  }

  lemma HistogramEmpty(b: Bookings, f: Facet, es: set<Entry>)
    ensures Histogram(b, f, es) == map[] <==> es == {}
  {
    NoGroupsWithoutEntries(b, f, es);
    var h := Histogram(b, f, es);
    assert h.Keys == Groups(b, f, es);
    if h == map[] {
      assert Groups(b, f, es) == {};
    }
  }

  /** The weekday most booked is a weekday, or the placeholder exactly when
      nothing is booked. */
  lemma MostPopularDayIsWeekday(b: Bookings, day: string)
    requires WellFormed(b) && IsMostPopular(Histogram(b, ByWeekday, Entries(b)), day)
    ensures Entries(b) == {} <==> day == "нет данных"
    ensures Entries(b) != {} ==> day in DayNames
  {
    HistogramEmpty(b, ByWeekday, Entries(b));
    WeekdayGroups(b);
    assert "нет данных" !in DayNames;
  }

  /** The statistics agree with each other: both groupings count every booking
      once, every user has at least one booking, and the most popular weekday
      is a weekday unless there are no bookings at all. */
  lemma StatsConsistent(b: Bookings, q: QuotaTable, p: Payload)
    requires WellFormed(b) && StatsOk(b, q, p)
    ensures SumOver(p.dayStats, p.dayStats.Keys) == p.totalBookings
    ensures SumOver(p.bloodGroupStats, p.bloodGroupStats.Keys) == p.totalBookings
    ensures p.totalUsers <= p.totalBookings
    ensures p.totalBookings == 0 <==> p.mostPopularDay == "нет данных"
    ensures p.totalBookings > 0 ==> p.mostPopularDay in DayNames
  {
    HistogramTotal(b, ByWeekday, Entries(b));
    HistogramTotal(b, ByBloodGroup, Entries(b));
    UsersAtMostBookings(b, b.Keys);
    MostPopularDayIsWeekday(b, p.mostPopularDay);
  }

  lemma {:induction false} UsersAtMostBookings(b: Bookings, users: set<int>)
    requires users <= b.Keys && forall u :: u in users ==> b[u] != map[]
    ensures |users| <= |EntriesOf(b, users)|
    decreases users
  {
    if users != {} {
      var u := Pick(users);
      var rest := users - {u};
      UsersAtMostBookings(b, rest);
      EntriesOfAddUser(b, rest, u);
      assert rest + {u} == users;
      var before, mine := EntriesOf(b, rest), Pairs(u, b[u].Keys);
      assert |before + mine| == |before| + |mine|;
      var d := Pick(b[u].Keys);
      assert |b[u].Keys| >= 1;
    }
  }
}
