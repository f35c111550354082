/** The tab-bar context (`TabBarProvider`): screens that want the tab bar hidden
    push onto a counter and pop when they leave; the bar is visible while the
    counter is zero. Hide, show, the visibility effect and the cleanup are
    separate operations here; how React schedules them is not modelled. */
module TabBar {

  datatype TabBar = TabBar(stack: nat, visible: bool)

  const Initial := TabBar(0, true)

  /** `hideTabBar`: one more screen wants the bar hidden. */
  function Hide(t: TabBar): (r: TabBar)
    ensures r.stack == t.stack + 1 && r.visible == t.visible
  {
    t.(stack := t.stack + 1)
  }

  /** `showTabBar`: one screen fewer, never below zero. */
  function Show(t: TabBar): (r: TabBar)
    ensures r.stack == if t.stack == 0 then 0 else t.stack - 1
    ensures r.visible == t.visible
  {
    t.(stack := if t.stack > 0 then t.stack - 1 else 0)
  }

  /** Showing undoes a hide, and a hide undoes a show exactly when there was
      something to pop. */
  lemma ShowUndoesHide(t: TabBar)
    ensures Show(Hide(t)) == t
    ensures Hide(Show(t)) == t <==> t.stack > 0
  {
  }

  /** The result of the visibility effect and whether it wrote the flag. */
  datatype Synced = Synced(bar: TabBar, wrote: bool)

  /** The effect: the bar should be visible exactly when the counter is zero,
      and the flag is written only when it disagrees. */
  function Sync(t: TabBar): (r: Synced)
    ensures r.bar.stack == t.stack
    ensures r.bar.visible <==> t.stack == 0
    ensures r.wrote <==> t.visible != (t.stack == 0)
  {
    var shouldBeVisible := t.stack == 0;
    if t.visible != shouldBeVisible then Synced(t.(visible := shouldBeVisible), true)
    else Synced(t, false)
  }

  /** Running the effect a second time writes nothing. */
  lemma SyncSettles(t: TabBar)
    ensures !Sync(Sync(t).bar).wrote
    ensures Sync(Sync(t).bar).bar == Sync(t).bar
  {
  }

  /** The effect's cleanup: counter to zero, bar visible. */
  function Reset(t: TabBar): (r: TabBar)
    ensures r.stack == 0 && r.visible
    ensures !Sync(r).wrote
  {
    Initial
  }

  function HideTimes(t: TabBar, n: nat): TabBar
    decreases n
  {
    if n == 0 then t else HideTimes(Hide(t), n - 1)
  }

  function ShowTimes(t: TabBar, n: nat): TabBar
    decreases n
  {
    if n == 0 then t else ShowTimes(Show(t), n - 1)
  }

  lemma {:induction false} HideTimesCounts(t: TabBar, n: nat)
    ensures HideTimes(t, n) == t.(stack := t.stack + n)
    decreases n
  {
    if n > 0 {
      HideTimesCounts(Hide(t), n - 1);
    }
  }

  /** `n` shows pop `n` entries, stopping at zero. */
  lemma {:induction false} ShowTimesSaturates(t: TabBar, n: nat)
    ensures ShowTimes(t, n) == t.(stack := if t.stack >= n then t.stack - n else 0)
    decreases n
  {
    if n > 0 {
      ShowTimesSaturates(Show(t), n - 1);
    }
  }

  /** From any counter, `n` hides followed by `n` shows restore it. */
  lemma HidesThenShowsRestore(t: TabBar, n: nat)
    ensures ShowTimes(HideTimes(t, n), n) == t
  {
    HideTimesCounts(t, n);
    ShowTimesSaturates(HideTimes(t, n), n);
  }

  /** From the initial state, `hides` hides followed by `shows` shows leave the
      synced bar visible exactly when there were at least as many shows. */
  lemma VisibleAfterBalancedCalls(hides: nat, shows: nat)
    ensures Sync(ShowTimes(HideTimes(Initial, hides), shows)).bar.visible <==> shows >= hides
  {
    HideTimesCounts(Initial, hides);
    ShowTimesSaturates(HideTimes(Initial, hides), shows);
  }

  // ---------------------------------------------------------------------------
  // Arbitrary interleavings

  datatype Call = HideCall | ShowCall

  function Step(t: TabBar, c: Call): TabBar {
    match c
    case HideCall => Hide(t)
    case ShowCall => Show(t)
  }

  /** The calls made in order. */
  function Apply(t: TabBar, calls: seq<Call>): TabBar
    decreases |calls|
  {
    if |calls| == 0 then t else Apply(Step(t, calls[0]), calls[1..])
  }

  /** Hides minus shows. */
  function Net(calls: seq<Call>): int
    decreases |calls|
  {
    if |calls| == 0 then 0
    else (if calls[0].HideCall? then 1 else -1) + Net(calls[1..])
  }

  /** The largest surplus of hides over shows in any suffix of the calls (the
      empty suffix counts, so it is never negative): the hides still waiting for
      a show, since a show that found the counter at zero is lost. */
  function Outstanding(calls: seq<Call>): (n: nat)
    ensures forall k :: 0 <= k <= |calls| ==> Net(calls[k..]) <= n
    ensures n == 0 || exists k :: 0 <= k < |calls| && Net(calls[k..]) == n
    decreases |calls|
  {
    if |calls| == 0 then 0
    else
      var rest := Outstanding(calls[1..]);
      assert forall k :: 1 <= k <= |calls| ==> calls[k..] == calls[1..][k - 1..];
      assert calls[0..] == calls;
      if Net(calls) > rest then Net(calls) else rest
  }

  lemma {:induction false} NetAppend(calls: seq<Call>, c: Call)
    ensures Net(calls + [c]) == Net(calls) + (if c.HideCall? then 1 else -1)
    decreases |calls|
  {
    if |calls| == 0 {
      assert [c][1..] == [];
    } else {
      assert (calls + [c])[1..] == calls[1..] + [c];
      NetAppend(calls[1..], c);
    }
  }

  /** One more call moves the outstanding count the way the counter moves. */
  lemma {:induction false} OutstandingAppend(calls: seq<Call>, c: Call)
    ensures Outstanding(calls + [c]) == Step(TabBar(Outstanding(calls), true), c).stack
    decreases |calls|
  {
    NetAppend(calls, c);
    if |calls| == 0 {
      assert [c][1..] == [];
    } else {
      assert (calls + [c])[1..] == calls[1..] + [c];
      OutstandingAppend(calls[1..], c);
    }
  }

  lemma {:induction false} ApplyAppend(t: TabBar, calls: seq<Call>, c: Call)
    ensures Apply(t, calls + [c]) == Step(Apply(t, calls), c)
    decreases |calls|
  {
    if |calls| == 0 {
      assert [c][1..] == [];
    } else {
      assert (calls + [c])[1..] == calls[1..] + [c];
      ApplyAppend(Step(t, calls[0]), calls[1..], c);
    }
  }

  /** From the initial state, any sequence of hides and shows leaves the counter
      at the outstanding count, with the flag untouched until the effect runs. */
  lemma {:induction false} CounterIsOutstanding(calls: seq<Call>)
    ensures Apply(Initial, calls) == TabBar(Outstanding(calls), true)
    decreases |calls|
  {
    if |calls| > 0 {
      var init := calls[..|calls| - 1];
      var last := calls[|calls| - 1];
      assert calls == init + [last];
      CounterIsOutstanding(init);
      ApplyAppend(Initial, init, last);
      OutstandingAppend(init, last);
    }
  }

  /** From the initial state, after any hides and shows the synced bar is visible
      exactly when every suffix of the calls has at least as many shows as hides. */
  lemma VisibleAfterCalls(calls: seq<Call>)
    ensures Sync(Apply(Initial, calls)).bar.visible <==> forall k :: 0 <= k <= |calls| ==> Net(calls[k..]) <= 0
  {
    CounterIsOutstanding(calls);
  }

  /** A show that finds the counter at zero is lost: one show and then one hide
      leave the bar hidden although the calls balance. */
  lemma LostShow()
    ensures Net([ShowCall, HideCall]) == 0
    ensures !Sync(Apply(Initial, [ShowCall, HideCall])).bar.visible
  {
    VisibleAfterCalls([ShowCall, HideCall]);
    assert [ShowCall, HideCall][1..] == [HideCall];
    assert Net([ShowCall, HideCall][1..]) == 1;
  }
}
