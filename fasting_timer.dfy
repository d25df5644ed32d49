/** The fasting timer (src/hooks/useFastingTimer.ts): starting and ending a fast, the
    elapsed time recomputed from the absolute start on every tick, and the values derived
    from it. Times are integer milliseconds since the epoch; `now` stands for `Date.now()`. */
module FastingTimer {
  import opened Wrappers
  import opened Types
  import opened Strings
  import opened Vfs
  import opened MainProcess
  import opened VaultSession
  import opened MetabolicPhases

  // ── Derived values ───────────────────────────────────────────────────

  /** `calculateWeightLoss(seconds, tmb)`: kilograms of fat the daily expenditure `tmb`
      burns in `seconds`, at 7700 kcal per kilogram. */
  function WeightLoss(seconds: int, tmb: real): real {
    tmb / 86400.0 * seconds as real * (1.0 / 7700.0)
  }

  /** No time, no loss; the loss is linear in the duration, so it grows strictly with it
      for a positive expenditure. */
  lemma WeightLossLinear(a: int, b: int, tmb: real)
    ensures WeightLoss(0, tmb) == 0.0
    ensures WeightLoss(a + b, tmb) == WeightLoss(a, tmb) + WeightLoss(b, tmb)
    ensures WeightLoss(a, tmb) == tmb * a as real / 665280000.0
    ensures tmb > 0.0 && a < b ==> WeightLoss(a, tmb) < WeightLoss(b, tmb)
  {
    var k := tmb / 86400.0 * (1.0 / 7700.0);
    assert WeightLoss(a, tmb) == k * a as real;
    assert WeightLoss(b, tmb) == k * b as real;
    assert WeightLoss(a + b, tmb) == k * (a + b) as real;
    if tmb > 0.0 && a < b {
      assert k > 0.0;
      assert k * a as real < k * b as real;
    }
  }

  /** `state.profile?.tmb || 0` */
  function TmbOf(s: AppState): real {
    if s.profile.Some? then s.profile.value.tmb else 0.0
  }

  /** The tick's `Math.floor((now - startTime) / 1000)`, or 0 when no fast is running. */
  function Elapsed(f: CurrentFast, now: int): (e: int)
    ensures !(f.isActive && NonZero(f.startTime)) ==> e == 0
    ensures f.isActive && NonZero(f.startTime) ==>
      e * 1000 <= now - f.startTime.value < e * 1000 + 1000
  {
    if f.isActive && NonZero(f.startTime) then (now - f.startTime.value) / 1000 else 0
  }

  /** Elapsed time depends on the start and the clock only through their difference. */
  lemma ElapsedShift(f: CurrentFast, now: int, d: int)
    requires f.isActive && NonZero(f.startTime) && f.startTime.value + d != 0
    ensures Elapsed(f.(startTime := Some(f.startTime.value + d)), now + d) == Elapsed(f, now)
  {
    var g := f.(startTime := Some(f.startTime.value + d));
    assert now + d - g.startTime.value == now - f.startTime.value;
  }

  /** JavaScript's `%`: the remainder takes the sign of the dividend. */
  function JsRem(a: int, b: int): (r: int)
    requires b > 0
    ensures a >= 0 ==> r == a % b
    ensures -b < r < b
  {
    if a >= 0 then a % b else -((-a) % b)
  }

  /** Hours, minutes and seconds of a count of seconds, as the hook computes them. */
  function Decompose(total: int): (int, int, int) {
    (total / 3600, JsRem(total, 3600) / 60, JsRem(total, 60))
  }

  /** For a non-negative count the three parts add back up to it, with minutes and seconds
      below 60. */
  lemma DecomposeSum(total: int)
    requires total >= 0
    ensures var (h, m, s) := Decompose(total);
      h * 3600 + m * 60 + s == total && h >= 0 && 0 <= m < 60 && 0 <= s < 60
  {
    var h, r := total / 3600, total % 3600;
    assert total == h * 3600 + r;
    var m, s := r / 60, r % 60;
    assert r == m * 60 + s;
    assert total == (h * 60 + m) * 60 + s;
    assert total % 60 == s;
  }

  /** `targetHours ? targetHours * 3600 : 0` */
  function TargetSeconds(target: Option<int>): int {
    if NonZero(target) then target.value * 3600 else 0
  }

  /** `progress`: the elapsed share of the target, capped at 1; 0 without a target. */
  function Progress(elapsed: int, target: Option<int>): (r: real)
    ensures r <= 1.0
    ensures !NonZero(target) ==> r == 0.0
    ensures NonZero(target) && target.value > 0 && elapsed >= 0 ==> 0.0 <= r
    ensures NonZero(target) && target.value > 0 && elapsed >= TargetSeconds(target) ==> r == 1.0
    ensures NonZero(target) && target.value > 0 && 0 <= elapsed < TargetSeconds(target) ==> r < 1.0
  {
    if NonZero(target) then
      var total := TargetSeconds(target);
      var share := elapsed as real / total as real;
      assert total > 0 ==> (elapsed >= total <==> share >= 1.0) by {
        if total > 0 {
          assert share * total as real == elapsed as real;
        }
      }
      Min(share, 1.0)
    else 0.0
  }

  /** `remainingSeconds = Math.max(targetTotalSeconds - elapsedSeconds, 0)` */
  function Remaining(elapsed: int, target: Option<int>): (r: int)
    ensures r >= 0
    ensures r == 0 <==> elapsed >= TargetSeconds(target)
    ensures elapsed <= TargetSeconds(target) ==> r + elapsed == TargetSeconds(target)
  {
    if TargetSeconds(target) - elapsed > 0 then TargetSeconds(target) - elapsed else 0
  }

  /** The countdown shown on the dial adds back up to the remaining seconds. */
  lemma CountdownSum(elapsed: int, target: Option<int>)
    ensures var (h, m, s) := Decompose(Remaining(elapsed, target));
      h * 3600 + m * 60 + s == Remaining(elapsed, target) && 0 <= m < 60 && 0 <= s < 60
  {
    DecomposeSum(Remaining(elapsed, target));
  }

  // ── Finishing a fast ─────────────────────────────────────────────────

  /** The payload that marks no fast as running: `{ isActive: false, startTime: null,
      targetHours: null }`. */
  const IdleActiveFast := ActiveFast(false, None, None)

  /** The record `endFast` appends for a fast started at `start` and ended at `endTime`.
      `endFast` reads the clock twice: once for the end time and once more, a moment
      later, for the id, which is stamped with `idTime`. */
  function FinishedFast(start: int, endTime: int, idTime: int, tmb: real): (e: FastEntry)
    ensures e.id == "fast-" + IntToDecimal(idTime)
    ensures e.startTime == start && e.endTime == endTime
    ensures e.duration * 1000 <= endTime - start < e.duration * 1000 + 1000
    ensures e.weightLoss == WeightLoss(e.duration, tmb)
  {
    var duration := (endTime - start) / 1000;
    FastEntry("fast-" + IntToDecimal(idTime), start, endTime, duration, WeightLoss(duration, tmb))
  }

  /** `{ ...history, fasts: [...history.fasts, entry] }` */
  function AppendFast(h: History, e: FastEntry): (r: History)
    ensures |r.fasts| == |h.fasts| + 1 && r.fasts[..|h.fasts|] == h.fasts && r.fasts[|h.fasts|] == e
    ensures r.progressEntries == h.progressEntries
  {
    h.(fasts := h.fasts + [e])
  }

  /** The guard of `endFast`: a start time, an open vault and a loaded history. */
  predicate CanEndFast(s: AppState) {
    NonZero(s.currentFast.startTime) && Present(s.vaultPath) && s.history.Some?
  }

  class Timer {
    const session: Session
    /** `elapsedSeconds`, the hook's state. */
    var elapsedSeconds: int

    constructor(session: Session)
      ensures this.session == session && elapsedSeconds == 0
    {
      this.session := session;
      elapsedSeconds := 0;
    }

    /** `startFast(targetHours)`: the fast runs from `now` and is persisted at once. */
    method StartFast(targetHours: int, now: int)
      modifies session, session.main
      ensures session.state == Reduce(old(session.state), Types.StartFast(now, targetHours))
      ensures session.main.files ==
        if session.hasVaultApi && Present(session.state.vaultPath)
        then AfterWrite(old(session.main.files), session.main.unwritable,
                        Join(session.state.vaultPath.value, ActiveFastFile),
                        ActiveFastDoc(ActiveFast(true, Some(now), Some(targetHours))))
        else old(session.main.files)
    {
      session.Dispatch(Types.StartFast(now, targetHours));
      session.SaveActiveFast(ActiveFast(true, Some(now), Some(targetHours)));
    }

    /** The tick: elapsed time is recomputed from the absolute start, never accumulated. */
    method Tick(now: int)
      modifies this
      ensures elapsedSeconds == Elapsed(session.state.currentFast, now)
    {
      var f := session.state.currentFast;
      if !f.isActive || !NonZero(f.startTime) {
        elapsedSeconds := 0;
        return;
      }
      elapsedSeconds := (now - f.startTime.value) / 1000;
    }

    /** `endFast()`: appends the finished fast to the history, saves it, marks no fast as
        running on disk and in memory, and resets the elapsed time; nothing at all happens
        without a start time, an open vault or a loaded history. The two clock readings
        are `endTime` and `idTime`. */
    method EndFast(endTime: int, idTime: int)
      modifies this, session, session.main
      ensures !CanEndFast(old(session.state)) ==>
        session.state == old(session.state) && session.main.files == old(session.main.files)
        && elapsedSeconds == old(elapsedSeconds)
      ensures CanEndFast(old(session.state)) ==>
        var s := old(session.state);
        var v := s.vaultPath.value;
        var h := AppendFast(s.history.value, FinishedFast(s.currentFast.startTime.value, endTime, idTime, TmbOf(s)));
        var saved := session.hasVaultApi && WriteSucceeds(old(session.main.files), session.main.unwritable, Join(v, HistoryFile));
        && session.state == Reduce(if saved then Reduce(s, SetHistory(h)) else s, Types.EndFast)
        && session.main.files ==
             (if session.hasVaultApi
              then AfterWrite(AfterWrite(old(session.main.files), session.main.unwritable, Join(v, HistoryFile), HistoryDoc(h)),
                              session.main.unwritable, Join(v, ActiveFastFile), ActiveFastDoc(IdleActiveFast))
              else old(session.main.files))
        && elapsedSeconds == 0
    {
      var s := session.state;
      if !CanEndFast(s) {
        return;
      }
      var start := s.currentFast.startTime.value;
      var entry := FinishedFast(start, endTime, idTime, TmbOf(s));
      var updated := AppendFast(s.history.value, entry);
      var _ := session.SaveHistory(updated);
      session.SaveActiveFast(IdleActiveFast);
      session.Dispatch(Types.EndFast);
      elapsedSeconds := 0;
    }
  }

  // ── Surviving a restart ──────────────────────────────────────────────

  /** A fast whose start was persisted is running again after a restart, with the same
      start and target, so its elapsed time at any later moment is the same as if the app
      had stayed open. */
  lemma StartedFastResumes(s: AppState, t: AppState, files: Files, unwritable: set<string>,
                           v: string, start: int, target: int, now: int)
    requires WriteSucceeds(files, unwritable, Join(v, ActiveFastFile))
    requires start != 0 && target != 0
    ensures var after := AfterWrite(files, unwritable, Join(v, ActiveFastFile), ActiveFastDoc(ActiveFast(true, Some(start), Some(target))));
      && WithActiveFast(t, after, v).currentFast == Reduce(s, Types.StartFast(start, target)).currentFast
      && Elapsed(WithActiveFast(t, after, v).currentFast, now) == (now - start) / 1000
  {
  }

  /** Once `endFast` has written the finished fast and the idle marker, the history on disk
      holds the earlier fasts followed by the new one, and a restart resumes no fast. */
  lemma EndedFastStaysEnded(t: AppState, files: Files, unwritable: set<string>, v: string, h: History)
    requires WriteSucceeds(files, unwritable, Join(v, HistoryFile))
    requires WriteSucceeds(Written(files, Join(v, HistoryFile), HistoryDoc(h)), unwritable, Join(v, ActiveFastFile))
    ensures var after := AfterWrite(AfterWrite(files, unwritable, Join(v, HistoryFile), HistoryDoc(h)),
                                    unwritable, Join(v, ActiveFastFile), ActiveFastDoc(IdleActiveFast));
      && HistoryAt(after, Join(v, HistoryFile)) == Some(h)
      && WithActiveFast(t, after, v) == t
  {
    var hp, ap := Join(v, HistoryFile), Join(v, ActiveFastFile);
    HistoryBesideActiveFast(v);
    WriteThenWrite(files, unwritable, hp, HistoryDoc(h), ap, ActiveFastDoc(IdleActiveFast));
  }

  /** The journal is neither the active-fast file nor its directory. */
  lemma HistoryBesideActiveFast(v: string)
    ensures var hp, ap := Join(v, HistoryFile), Join(v, ActiveFastFile);
      hp != ap && hp != Dirname(ap)
  {
    var hp, ap := Join(v, HistoryFile), Join(v, ActiveFastFile);
    JoinDistinct(v, HistoryFile, ActiveFastFile);
    DirnameOfJoin(v, ActiveFastFile);
    assert |hp| > |v| + 1;
  }
}
