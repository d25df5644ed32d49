/** The journal screen (src/components/HistoryScreen/HistoryScreen.tsx): loading the
    entries, adding the profile's weight once to an empty journal, deleting an entry, and
    the weight chart drawn from the entries. */
module HistoryScreenView {
  import opened Wrappers
  import opened Types
  import opened Lists
  import opened Vfs
  import opened MainProcess
  import opened VaultSession
  import opened ProfileSetupScreen

  /** A point of the weight chart. */
  datatype ChartPoint = ChartPoint(date: int, weight: real)

  predicate HasWeight(e: EnrichedEntry) {
    e.entry.weight.Some?
  }

  function PointOf(e: EnrichedEntry): ChartPoint {
    ChartPoint(e.entry.date, e.entry.weight.GetOr(0.0))
  }

  function EnrichedId(e: EnrichedEntry): string {
    e.entry.id
  }

  /** `chartData`: the entries that have a weight, in reverse order, as points. */
  function ChartData(entries: seq<EnrichedEntry>): seq<ChartPoint> {
    Map(PointOf, Reverse(Filter(HasWeight, entries)))
  }

  /** Point `i` of the chart is drawn from weighed entry `|w| - 1 - i`. */
  lemma ChartIndex(entries: seq<EnrichedEntry>)
    ensures var c, w := ChartData(entries), Filter(HasWeight, entries);
      |c| == |w| && forall i :: 0 <= i < |c| ==> c[i] == PointOf(w[|w| - 1 - i]) && HasWeight(w[|w| - 1 - i])
  {
  }

  /** The entry behind point `p` of a chart laid out as `ChartIndex` says. */
  lemma PointSource(c: seq<ChartPoint>, w: seq<EnrichedEntry>, p: ChartPoint) returns (e: EnrichedEntry)
    requires |c| == |w| && forall i :: 0 <= i < |c| ==> c[i] == PointOf(w[|w| - 1 - i]) && HasWeight(w[|w| - 1 - i])
    requires p in c
    ensures e in w && HasWeight(e) && p == PointOf(e)
  {
    var i :| 0 <= i < |c| && c[i] == p;
    e := w[|w| - 1 - i];
  }

  /** The point of entry `e` in a chart laid out as `ChartIndex` says. */
  lemma PointOfSource(c: seq<ChartPoint>, w: seq<EnrichedEntry>, e: EnrichedEntry)
    requires |c| == |w| && forall i :: 0 <= i < |c| ==> c[i] == PointOf(w[|w| - 1 - i])
    requires e in w
    ensures PointOf(e) in c
  {
    var k :| 0 <= k < |w| && w[k] == e;
    assert c[|w| - 1 - k] == PointOf(e);
  }

  /** Every weighed entry has its point on the chart. */
  lemma WeighedEntryCharted(entries: seq<EnrichedEntry>, e: EnrichedEntry)
    requires e in entries && HasWeight(e)
    ensures PointOf(e) in ChartData(entries)
  {
    var w := Filter(HasWeight, entries);
    ChartIndex(entries);
    assert multiset(w)[e] == multiset(entries)[e] > 0;
    PointOfSource(ChartData(entries), w, e);
  }

  /** Every point of the chart comes from a weighed entry. */
  lemma ChartPointFromEntry(entries: seq<EnrichedEntry>, p: ChartPoint)
    requires p in ChartData(entries)
    ensures exists e :: e in entries && HasWeight(e) && p == PointOf(e)
  {
    var w := Filter(HasWeight, entries);
    ChartIndex(entries);
    var e := PointSource(ChartData(entries), w, p);
    assert e in entries;
  }

  /** The chart has one point per weighed entry, the last weighed entry first, each
      carrying that entry's date and weight; unweighed entries are left out. */
  lemma ChartDataPoints(entries: seq<EnrichedEntry>)
    ensures var c, w := ChartData(entries), Filter(HasWeight, entries);
      && |c| == |w|
      && (forall i :: 0 <= i < |c| ==>
            c[i].date == w[|w| - 1 - i].entry.date && Some(c[i].weight) == w[|w| - 1 - i].entry.weight)
      && (forall e :: e in entries && HasWeight(e) ==> PointOf(e) in c)
      && (forall p :: p in c ==> exists e :: e in entries && HasWeight(e) && p == PointOf(e))
  {
    ChartIndex(entries);
    forall e | e in entries && HasWeight(e)
      ensures PointOf(e) in ChartData(entries)
    {
      WeighedEntryCharted(entries, e);
    }
    forall p | p in ChartData(entries)
      ensures exists e :: e in entries && HasWeight(e) && p == PointOf(e)
    {
      ChartPointFromEntry(entries, p);
    }
  }

  /** The chart runs against the order of the list it is drawn from: the points of the
      later entries `b` come before those of the earlier entries `a`. */
  lemma ChartOfAppend(a: seq<EnrichedEntry>, b: seq<EnrichedEntry>)
    ensures ChartData(a + b) == ChartData(b) + ChartData(a)
  {
    FilterAppend(HasWeight, a, b);
    ReverseAppend(Filter(HasWeight, a), Filter(HasWeight, b));
    MapAppend(PointOf, Reverse(Filter(HasWeight, b)), Reverse(Filter(HasWeight, a)));
  }

  /** Keeping only some elements keeps a newest-first order. */
  lemma {:induction false} FilterKeepsOrder(p: EnrichedEntry -> bool, s: seq<EnrichedEntry>)
    requires SortedDesc(s, EnrichedDate)
    ensures SortedDesc(Filter(p, s), EnrichedDate)
  {
    if s != [] {
      FilterKeepsOrder(p, s[1..]);
      var r := Filter(p, s[1..]);
      forall x | x in r ensures EnrichedDate(x) <= EnrichedDate(s[0]) {
        var k :| 1 <= k < |s| && s[k] == x;
      }
    }
  }

  /** Drawn from entries ordered newest first, as `history:get-all` returns them, the
      chart runs oldest first. */
  lemma ChartOldestFirst(entries: seq<EnrichedEntry>)
    requires SortedDesc(entries, EnrichedDate)
    ensures var c := ChartData(entries);
      forall i, j :: 0 <= i < j < |c| ==> c[i].date <= c[j].date
  {
    FilterKeepsOrder(HasWeight, entries);
    ChartDataPoints(entries);
  }

  class HistoryView {
    const session: Session
    var entries: seq<EnrichedEntry>
    var loading: bool
    /** `initialEntryAddedRef` */
    var initialEntryAdded: bool
    /** Whether the "New Entry" dialog is open. */
    var showModal: bool

    constructor(session: Session)
      ensures this.session == session && entries == [] && loading && !initialEntryAdded && !showModal
    {
      this.session := session;
      entries := [];
      loading := true;
      initialEntryAdded := false;
      showModal := false;
    }

    /** Whether `loadEntries` asks the main process at all. */
    predicate CanLoad()
      reads this, session
    {
      Present(session.state.vaultPath) && session.hasHistoryApi
    }

    /** `loadEntries`, where `getAllFails` stands for `get-all` answering with a failure
        (an error outside what the file model covers): the list is replaced only by a
        successful answer, which comes newest first. */
    method LoadEntries(getAllFails: bool)
      modifies this
      ensures !old(CanLoad()) ==> entries == old(entries) && loading == old(loading)
      ensures old(CanLoad()) ==> !loading
      ensures old(CanLoad()) ==>
        entries == if getAllFails then old(entries) else session.main.GetAll(session.state.vaultPath.value)
      ensures old(CanLoad()) && !getAllFails ==> SortedDesc(entries, EnrichedDate)
      ensures initialEntryAdded == old(initialEntryAdded) && showModal == old(showModal)
    {
      if !CanLoad() {
        return;
      }
      loading := true;
      if !getAllFails {
        entries := session.main.GetAll(session.state.vaultPath.value);
      }
      loading := false;
    }

    /** When the effect adding the profile's weight runs: a vault, a profile with a
        weight, the history API, an empty loaded list, and not done before. */
    predicate InitialEntryDue()
      reads this, session
    {
      && Present(session.state.vaultPath) && session.state.profile.Some? && session.state.profile.value.weight != 0.0
      && session.hasHistoryApi && |entries| == 0 && !loading && !initialEntryAdded
    }

    /** The effect adding the profile's weight to an empty journal, then reloading.
        `rejected` stands for the call to `add-entry` itself failing, after which the
        effect may run again; otherwise it never runs again. */
    method InitialEntryEffect(now: nat, suffix: string, rejected: bool, getAllFails: bool)
      modifies this, session.main
      ensures initialEntryAdded == if old(InitialEntryDue()) then !rejected else old(initialEntryAdded)
      ensures showModal == old(showModal)
      ensures !old(InitialEntryDue()) || rejected ==>
        session.main.files == old(session.main.files) && entries == old(entries) && loading == old(loading)
      ensures old(InitialEntryDue()) && !rejected ==>
        var v := session.state.vaultPath.value;
        var hp := Join(v, HistoryFile);
        var entry := StoredEntry(InitialEntry(session.state.profile.value.weight, now), now, suffix);
        && (Writable(old(session.main.files), session.main.unwritable, hp) ==>
              HistoryAt(session.main.files, hp) == Some(WithEntry(Journal(old(session.main.files), hp), entry)))
        && (!Writable(old(session.main.files), session.main.unwritable, hp) ==>
              SameAt(old(session.main.files), session.main.files, hp))
        && Keeps(old(session.main.files), session.main.files, {hp})
        && !loading
        && entries == if getAllFails then old(entries) else session.main.GetAll(v)
    {
      if !InitialEntryDue() {
        return;
      }
      initialEntryAdded := true;
      if rejected {
        initialEntryAdded := false;
        return;
      }
      var v := session.state.vaultPath.value;
      var _ := session.main.AddEntry(v, InitialEntry(session.state.profile.value.weight, now), now, suffix);
      assert PhotoFiles(Join(v, PhotosDir), None, now) == {};
      LoadEntries(getAllFails);
    }

    /** `handleDelete`: the entry leaves the local list only when `delete-entry` reports
        success; every other entry stays. */
    method HandleDelete(id: string) returns (r: Option<Outcome>)
      modifies this, session.main
      ensures r.None? <==> !(Present(session.state.vaultPath) && session.hasHistoryApi)
      ensures r.None? ==> session.main.files == old(session.main.files)
      ensures entries == if r == Some(Success) then RemoveWithId(old(entries), id, EnrichedId) else old(entries)
      ensures r == Some(Success) ==>
        && (forall e :: e in entries ==> e.entry.id != id)
        && (forall e :: e in old(entries) && e.entry.id != id ==> e in entries)
      ensures r.Some? ==>
        var v := session.state.vaultPath.value;
        var h := HistoryAt(old(session.main.files), Join(v, HistoryFile));
        && Keeps(old(session.main.files), session.main.files, DeleteTouches(v, h, id))
        && (h.Some? && h.value.progressEntries.Some? ==>
              (r.value.Success? <==> Writable(old(session.main.files), session.main.unwritable, Join(v, HistoryFile))))
        && (r.value.Failure? ==> SameAt(old(session.main.files), session.main.files, Join(v, HistoryFile)))
        && (r.value.Success? && h.Some? && h.value.progressEntries.Some? ==>
              HistoryAt(session.main.files, Join(v, HistoryFile))
              == Some(History(h.value.fasts, Some(RemoveWithId(h.value.progressEntries.value, id, IdOf)))))
      ensures loading == old(loading) && initialEntryAdded == old(initialEntryAdded) && showModal == old(showModal)
    {
      if !Present(session.state.vaultPath) || !session.hasHistoryApi {
        return None;
      }
      var result := session.main.DeleteEntry(session.state.vaultPath.value, id);
      if result.Success? {
        RemoveWithIdKeepsOthers(entries, id, EnrichedId);
        entries := RemoveWithId(entries, id, EnrichedId);
        forall e | e in old(entries) && e.entry.id != id
          ensures e in entries
        {
          assert multiset(entries)[e] == multiset(old(entries))[e] > 0;
        }
      }
      r := Some(result);
    }
  
    /** `handleEntryAdded`: the dialog closes and the list is read again, so it shows the
        journal as stored, newest first. */
    method HandleEntryAdded(getAllFails: bool)
      modifies this
      ensures !showModal
      ensures old(CanLoad()) && !getAllFails ==>
        entries == session.main.GetAll(session.state.vaultPath.value) && SortedDesc(entries, EnrichedDate)
      ensures !old(CanLoad()) || getAllFails ==> entries == old(entries)
      ensures initialEntryAdded == old(initialEntryAdded)
    {
      showModal := false;
      LoadEntries(getAllFails);
    }
  }
}
