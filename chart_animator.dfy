/** The animation scheduler of the bundled chart library (class Animator in
    chart.js): a table of per-chart animation records, a start/stop state
    machine per chart, and the frame step `_update` that prunes finished
    animation items. Charts and listeners are handles; listener callbacks,
    item `tick` calls and the animation-frame timer are outside the model. */
module ChartAnimator {
  import opened Wrappers
  import opened Sequences

  /** A chart, identified by its handle. */
  type Chart = nat
  /** A listener callback, identified by its handle. */
  type Listener = nat

  /** One animation item: whether it is still `_active`, and its `_total` duration. */
  datatype AnimItem = AnimItem(active: bool, total: int)

  /** The four event types a chart's listener table is created with. */
  const EventTypes: set<string> := {"start", "complete", "progress", "stop"}

  /** The record `register(chart)` creates for a chart. */
  datatype Anims = Anims(
    running: bool,
    items: seq<AnimItem>,
    listeners: map<string, seq<Listener>>,
    duration: int)

  /** What `_getAnims` and `listen` throw. */
  datatype AnimatorError = ChartNotFound | InvalidEventType(eventType: string)

  /** A freshly registered chart: not running, no items, empty listener lists, duration 0. */
  const InitialAnims: Anims := Anims(false, [], map["start" := [], "complete" := [], "progress" := [], "stop" := []], 0)

  // ---------------------------------------------------------------------------
  // The frame step, as functions
  // ---------------------------------------------------------------------------

  /** The items that survive pruning: the active ones, in their original order. */
  function Active(items: seq<AnimItem>): seq<AnimItem>
    decreases |items|
  {
    if items == [] then []
    else
      var last := items[|items| - 1];
      Active(items[..|items| - 1]) + (if last.active then [last] else [])
  }

  /** `duration` raised to every `_total` in `items` that exceeds it, in order. */
  function RaiseDuration(duration: int, items: seq<AnimItem>): int
    decreases |items|
  {
    if items == [] then duration
    else
      var d := RaiseDuration(duration, items[..|items| - 1]);
      if items[|items| - 1].total > d then items[|items| - 1].total else d
  }

  /** A chart that `_update` processes: running with at least one item. */
  predicate Processed(a: Anims) {
    a.running && a.items != []
  }

  /** A chart that `_update` counts as still animating afterwards. */
  predicate StaysRunning(a: Anims) {
    Processed(a) && Active(a.items) != []
  }

  /** One chart's record after `_update`. */
  function Updated(a: Anims): Anims {
    if !Processed(a) then a
    else
      var kept := Active(a.items);
      if kept == [] then a.(running := false, items := [], duration := 0)
      else a.(items := kept, duration := RaiseDuration(a.duration, kept))
  }

  /** Pruning keeps exactly the active items and keeps them in order. */
  lemma {:induction false} ActiveSpec(items: seq<AnimItem>)
    ensures forall x :: x in Active(items) <==> x in items && x.active
    ensures IsSubsequence(Active(items), items)
    decreases |items|
  {
    if items != [] {
      var init := items[..|items| - 1];
      var last := items[|items| - 1];
      ActiveSpec(init);
      assert items == init + [last];
      SubsequenceExtend(Active(init), init, last, last.active);
    }
  }

  /** Pruning distributes over concatenation, so it never reorders items. */
  lemma {:induction false} ActiveConcat(a: seq<AnimItem>, b: seq<AnimItem>)
    ensures Active(a + b) == Active(a) + Active(b)
    decreases |b|
  {
    if b == [] {
      assert a + b == a;
    } else {
      var init := b[..|b| - 1];
      assert (a + b)[..|a + b| - 1] == a + init;
      ActiveConcat(a, init);
    }
  }

  /** The raised duration is the maximum of the starting duration and every total. */
  lemma {:induction false} RaiseDurationIsMax(duration: int, items: seq<AnimItem>)
    ensures RaiseDuration(duration, items) >= duration
    ensures forall x :: x in items ==> RaiseDuration(duration, items) >= x.total
    ensures RaiseDuration(duration, items) == duration
         || exists x :: x in items && RaiseDuration(duration, items) == x.total
    decreases |items|
  {
    if items != [] {
      var init := items[..|items| - 1];
      RaiseDurationIsMax(duration, init);
      assert items == init + [items[|items| - 1]];
    }
  }

  /** The frame step on one chart: survivors are the active items,
      the duration covers every survivor, and an emptied chart stops with duration 0. */
  lemma UpdatedSpec(a: Anims)
    ensures !Processed(a) ==> Updated(a) == a
    ensures Processed(a) ==> forall x :: x in Updated(a).items <==> x in a.items && x.active
    ensures Processed(a) ==> forall x :: x in Updated(a).items ==> Updated(a).duration >= x.total
    ensures Processed(a) ==> (Updated(a).running <==> Active(a.items) != [])
    ensures Processed(a) && Active(a.items) == [] ==> Updated(a).duration == 0
    ensures Updated(a).listeners == a.listeners
  {
    ActiveSpec(a.items);
    RaiseDurationIsMax(a.duration, Active(a.items));
  }

  /** A processed chart stays running exactly when its updated record is running. */
  lemma StaysRunningAfterUpdate(a: Anims)
    requires Processed(a)
    ensures StaysRunning(a) <==> Updated(a).running
  {
  }

  /** A table in which every chart has been stepped is the stepped table, and keeps
      every chart's listener lists. */
  lemma UpdateAll(before: map<Chart, Anims>, after: map<Chart, Anims>)
    requires after.Keys == before.Keys
    requires forall c :: c in after ==> after[c] == Updated(before[c])
    ensures after == map c | c in before :: Updated(before[c])
    ensures forall c :: c in after ==> after[c].listeners == before[c].listeners
  {
  }

  // ---------------------------------------------------------------------------
  // The animator
  // ---------------------------------------------------------------------------

  class Animator {
    /** `_charts`: the record of every registered chart. */
    var charts: map<Chart, Anims>
    /** `_running`. */
    var running: bool
    /** Whether an animation frame has been requested (`_request` is set). */
    var requestPending: bool

    /** Every record carries exactly the four listener lists. */
    ghost predicate Valid()
      reads this
    {
      forall c :: c in charts ==> charts[c].listeners.Keys == EventTypes
    }

    constructor ()
      ensures Valid() && charts == map[] && !running && !requestPending
    {
      charts := map[];
      running := false;
      requestPending := false;
    }

    /** `_refresh`: request a frame unless one is already pending, and mark the animator running. */
    method Refresh()
      modifies this
      ensures charts == old(charts) && requestPending
      ensures running == (old(running) || !old(requestPending))
    {
      if requestPending {
        return;
      }
      running := true;
      requestPending := true;
    }

    /** The body of the frame callback `_refresh` requests: update, clear the
        request, and ask for the next frame while anything is still running. */
    method AnimationFrame()
      requires Valid()
      modifies this
      ensures Valid()
      ensures charts == map c | c in old(charts) :: Updated(old(charts)[c])
      ensures requestPending == running
      ensures running == exists c :: c in old(charts) && StaysRunning(old(charts)[c])
    {
      Update();
      requestPending := false;
      if running {
        Refresh();
      }
    }

    /** One chart's step of `_update`: the in-place pruning loop. */
    static method PruneItems(a: Anims) returns (b: Anims)
      requires Processed(a)
      ensures b == Updated(a)
    {
      var items := a.items;
      var duration := a.duration;
      var i := 0;
      ghost var j := 0;
      while i < |items|
        invariant 0 <= i <= |items| && 0 <= j <= |a.items|
        invariant items[..i] == Active(a.items[..j])
        invariant items[i..] == a.items[j..]
        invariant duration == RaiseDuration(a.duration, items[..i])
        decreases |items| - i
      {
        assert a.items[..j + 1] == a.items[..j] + [a.items[j]];
        assert items[i] == a.items[j];
        if items[i].active {
          if items[i].total > duration {
            duration := items[i].total;
          }
          assert items[..i + 1] == items[..i] + [items[i]];
          i := i + 1;
        } else {
          items := items[..i] + items[i + 1..];
        }
        j := j + 1;
      }
      assert items == items[..i];
      assert a.items[..j] == a.items;
      if items == [] {
        b := a.(running := false, items := items, duration := 0);
      } else {
        b := a.(items := items, duration := duration);
      }
    }

    /** The `forEach` of `_update` over the chart table: every processed chart is
        pruned, and `remaining` counts the charts left running. */
    static method UpdateTable(before: map<Chart, Anims>) returns (table: map<Chart, Anims>, remaining: nat)
      ensures table == map c | c in before :: Updated(before[c])
      ensures remaining > 0 <==> exists c :: c in before && StaysRunning(before[c])
    {
      table := before;
      var todo := table.Keys;
      remaining := 0;
      ghost var done: set<Chart> := {};
      ghost var staying: set<Chart> := {};
      while todo != {}
        invariant todo !! done && todo + done == before.Keys && table.Keys == before.Keys
        invariant forall c :: c in todo ==> table[c] == before[c]
        invariant forall c :: c in done ==> table[c] == Updated(before[c])
        invariant forall c :: c in staying <==> c in done && StaysRunning(before[c])
        invariant remaining > 0 <==> staying != {}
        decreases todo
      {
        var c :| c in todo;
        var a := table[c];
        if a.running && a.items != [] {
          var b := PruneItems(a);
          table := table[c := b];
          StaysRunningAfterUpdate(a);
          if b.running {
            remaining := remaining + 1;
            staying := staying + {c};
          }
        }
        todo := todo - {c};
        done := done + {c};
      }
      assert done == before.Keys;
      if remaining > 0 {
        ghost var w :| w in staying;
        assert w in before && StaysRunning(before[w]);
      }
      UpdateAll(before, table);
    }

    /** `_update`: step every processed chart; `_running` ends true exactly
        when some processed chart still has items. */
    method Update()
      requires Valid()
      modifies this
      ensures Valid()
      ensures charts == map c | c in old(charts) :: Updated(old(charts)[c])
      ensures running == exists c :: c in old(charts) && StaysRunning(old(charts)[c])
      ensures requestPending == old(requestPending)
    {
      var table, remaining := UpdateTable(charts);
      UpdateAll(charts, table);
      charts := table;
      running := remaining > 0;
    }

    /** `_getAnims`: the chart's record, or the "Chart not found" error. */
    function GetAnims(chart: Chart): (r: Result<Anims, AnimatorError>)
      reads this
      ensures r.Failure? <==> chart !in charts
      ensures r.Failure? ==> r.error == ChartNotFound
      ensures r.Success? ==> r.value == charts[chart]
    {
      if chart in charts then Success(charts[chart]) else Failure(ChartNotFound)
    }

    /** `listen(chart, type, listener)`: appends to the named list; fails for an
        unregistered chart or any other event type. */
    method Listen(chart: Chart, eventType: string, listener: Listener) returns (r: Outcome<AnimatorError>)
      requires Valid()
      modifies this
      ensures Valid()
      ensures chart !in old(charts) ==> r == Fail(ChartNotFound) && charts == old(charts)
      ensures chart in old(charts) && eventType !in EventTypes ==>
        r == Fail(InvalidEventType(eventType)) && charts == old(charts)
      ensures chart in old(charts) && eventType in EventTypes ==>
        r == Pass &&
        charts == old(charts)[chart := old(charts)[chart].(listeners :=
          old(charts)[chart].listeners[eventType := old(charts)[chart].listeners[eventType] + [listener]])]
      ensures running == old(running) && requestPending == old(requestPending)
    {
      var anims := GetAnims(chart);
      if anims.Failure? {
        return Fail(anims.error);
      }
      var a := anims.value;
      if eventType !in a.listeners {
        return Fail(InvalidEventType(eventType));
      }
      charts := charts[chart := a.(listeners := a.listeners[eventType := a.listeners[eventType] + [listener]])];
      return Pass;
    }

    /** `add(chart, items)`: appends the items and requests a frame. */
    method Add(chart: Chart, items: seq<AnimItem>) returns (r: Outcome<AnimatorError>)
      requires Valid()
      modifies this
      ensures Valid()
      ensures chart !in old(charts) ==> (r == Fail(ChartNotFound) && charts == old(charts) &&
        running == old(running) && requestPending == old(requestPending))
      ensures chart in old(charts) ==> (
        r == Pass &&
        charts == old(charts)[chart := old(charts)[chart].(items := old(charts)[chart].items + items)] &&
        requestPending && running == (old(running) || !old(requestPending)))
    {
      var anims := GetAnims(chart);
      if anims.Failure? {
        return Fail(anims.error);
      }
      var a := anims.value;
      charts := charts[chart := a.(items := a.items + items)];
      Refresh();
      return Pass;
    }

    /** `has(chart)`. */
    predicate Has(chart: Chart)
      reads this
    {
      chart in charts
    }

    /** `start(chart)`: a stopped chart starts with duration 0; a running chart is left alone. */
    method Start(chart: Chart) returns (r: Outcome<AnimatorError>)
      requires Valid()
      modifies this
      ensures Valid()
      ensures chart !in old(charts) ==> r == Fail(ChartNotFound)
      ensures chart !in old(charts) || old(charts)[chart].running ==>
        charts == old(charts) && running == old(running) && requestPending == old(requestPending)
      ensures chart in old(charts) ==> r == Pass
      ensures chart in old(charts) && !old(charts)[chart].running ==> (
        charts == old(charts)[chart := old(charts)[chart].(running := true, duration := 0)] &&
        requestPending && running == (old(running) || !old(requestPending)))
    {
      var anims := GetAnims(chart);
      if anims.Failure? {
        return Fail(anims.error);
      }
      var a := anims.value;
      if a.running {
        return Pass;
      }
      charts := charts[chart := a.(running := true, duration := 0)];
      Refresh();
      return Pass;
    }

    /** `running(chart)`: false for an unregistered chart. */
    predicate Running(chart: Chart)
      reads this
      ensures Running(chart) ==> Has(chart)
    {
      chart in charts && charts[chart].running
    }

    /** `stop(chart)`: a running chart stops; a stopped chart is left alone. Items are kept. */
    method Stop(chart: Chart) returns (r: Outcome<AnimatorError>)
      requires Valid()
      modifies this
      ensures Valid()
      ensures chart !in old(charts) ==> r == Fail(ChartNotFound)
      ensures chart in old(charts) ==> r == Pass
      ensures chart in old(charts) && old(charts)[chart].running ==>
        charts == old(charts)[chart := old(charts)[chart].(running := false)]
      ensures chart !in old(charts) || !old(charts)[chart].running ==> charts == old(charts)
      ensures running == old(running) && requestPending == old(requestPending)
    {
      var anims := GetAnims(chart);
      if anims.Failure? {
        return Fail(anims.error);
      }
      var a := anims.value;
      if !a.running {
        return Pass;
      }
      charts := charts[chart := a.(running := false)];
      return Pass;
    }

    /** `remove(chart)`: forgets the chart; reports whether it was registered. */
    method Remove(chart: Chart) returns (existed: bool)
      requires Valid()
      modifies this
      ensures Valid()
      ensures existed == (chart in old(charts))
      ensures charts == old(charts) - {chart}
      ensures running == old(running) && requestPending == old(requestPending)
    {
      existed := chart in charts;
      charts := charts - {chart};
    }

    /** `register(chart)`: (re)initialises the chart's record, dropping any previous one. */
    method Register(chart: Chart)
      requires Valid()
      modifies this
      ensures Valid()
      ensures charts == old(charts)[chart := InitialAnims]
      ensures running == old(running) && requestPending == old(requestPending)
    {
      charts := charts[chart := InitialAnims];
    }
  }
}
