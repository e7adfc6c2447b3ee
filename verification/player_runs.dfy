/** The controller over sequences of inputs: what a run of several
    operations and bus messages does, as opposed to one handler at a time. */
module PlayerRuns {
  import opened Optional
  import opened Patterns
  import opened Parsers
  import opened Player
  import Pipeline

  /** The controller after `inputs`, taken one after the other by `step`,
      with all their outputs in order. */
  function Fold(step: (Controller, Input) -> Reaction, c: Controller, inputs: seq<Input>): Reaction
    decreases |inputs|
  {
    if inputs == [] then Reaction(c, [])
    else
      var r := step(c, inputs[0]);
      var rest := Fold(step, r.next, inputs[1..]);
      Reaction(rest.next, r.outputs + rest.outputs)
  }

  /** Folding over two input sequences one after the other is folding over
      their concatenation. */
  lemma {:induction false} FoldAppend(step: (Controller, Input) -> Reaction, c: Controller, a: seq<Input>, b: seq<Input>)
    ensures Fold(step, c, a + b).next == Fold(step, Fold(step, c, a).next, b).next
    ensures Fold(step, c, a + b).outputs == Fold(step, c, a).outputs + Fold(step, Fold(step, c, a).next, b).outputs
    decreases |a|
  {
    if a == [] {
      assert a + b == b;
    } else {
      assert (a + b)[0] == a[0];
      assert (a + b)[1..] == a[1..] + b;
      FoldAppend(step, step(c, a[0]).next, a[1..], b);
    }
  }

  /** The controller after a sequence of inputs. */
  function Run(c: Controller, inputs: seq<Input>): Reaction {
    Fold(Step, c, inputs)
  }

  /** `first` followed by `second`: the controller after both, with the
      outputs of both in order. */
  function Then(first: Reaction, second: Reaction): Reaction {
    Reaction(second.next, first.outputs + second.outputs)
  }

  /** `steps` lead from `from` to `to`: each starts where the previous one
      ended, and none stays where it was. */
  predicate Chain(from: State, steps: seq<(State, State)>, to: State)
    decreases |steps|
  {
    if steps == [] then from == to
    else steps[0].0 == from && steps[0].0 != steps[0].1 && Chain(steps[0].1, steps[1..], to)
  }

  lemma {:induction false} ChainJoin(a: State, s1: seq<(State, State)>, b: State, s2: seq<(State, State)>, c: State)
    requires Chain(a, s1, b) && Chain(b, s2, c)
    ensures Chain(a, s1 + s2, c)
    decreases |s1|
  {
    if s1 == [] {
      assert s1 + s2 == s2;
    } else {
      assert (s1 + s2)[0] == s1[0];
      assert (s1 + s2)[1..] == s1[1..] + s2;
      ChainJoin(s1[0].1, s1[1..], b, s2, c);
    }
  }

  lemma ChainOne(a: State, b: State)
    requires a != b
    ensures Chain(a, [(a, b)], b)
  {
    assert [(a, b)][1..] == [];
  }

  /** Every `state_changed` signal among `outputs` carries the label of
      the state it announces. */
  predicate Labelled(outputs: seq<Output>) {
    forall i :: 0 <= i < |outputs| && outputs[i].Emit? && outputs[i].event.StateChanged? ==>
      outputs[i].event.text == Label(outputs[i].event.state)
  }

  lemma LabelledJoin(a: seq<Output>, b: seq<Output>)
    requires Labelled(a) && Labelled(b)
    ensures Labelled(a + b)
  {
    forall k | 0 <= k < |a + b| && (a + b)[k].Emit? && (a + b)[k].event.StateChanged?
      ensures (a + b)[k].event.text == Label((a + b)[k].event.state)
    {
      if k >= |a| {
        assert (a + b)[k] == b[k - |a|];
      }
    }
  }

  /** `r`'s `state_changed` signals report its state changes faithfully:
      read in order they lead from `c`'s state to the state after, each is
      a real change, and each carries its state's label. */
  predicate Announces(c: Controller, r: Reaction) {
    Chain(c.state, Transitions(r.outputs), r.next.state) && Labelled(r.outputs)
  }

  /** Faithful announcing composes: a fold of a step that announces
      faithfully announces faithfully. */
  lemma {:induction false} FoldAnnounces(step: (Controller, Input) -> Reaction, c: Controller, inputs: seq<Input>)
    requires forall d: Controller, i: Input :: Announces(d, step(d, i))
    ensures Announces(c, Fold(step, c, inputs))
    decreases |inputs|
  {
    if inputs != [] {
      var r := step(c, inputs[0]);
      var rest := Fold(step, r.next, inputs[1..]);
      assert Announces(c, r);
      FoldAnnounces(step, r.next, inputs[1..]);
      Concat(r.outputs, rest.outputs);
      ChainJoin(c.state, Transitions(r.outputs), r.next.state, Transitions(rest.outputs), rest.next.state);
      LabelledJoin(r.outputs, rest.outputs);
    }
  }

  lemma BufferingAnnounces(c: Controller, percent: int)
    ensures Announces(c, OnBuffering(c, percent))
    ensures Announces(c, Step(c, Bus(Pipeline.Buffering(percent))))
  {
    assert Step(c, Bus(Pipeline.Buffering(percent))) == OnBuffering(c, percent);
    if c.state != Buffering {
      ChainOne(c.state, Buffering);
    }
    if percent == 100 {
      ChainOne(Buffering, Playing);
      if c.state != Buffering {
        ChainJoin(c.state, [(c.state, Buffering)], Buffering, [(Buffering, Playing)], Playing);
      }
    }
  }

  lemma ErrorAnnounces(c: Controller, error: string, debug: string)
    ensures Announces(c, OnError(c, error, debug))
    ensures Announces(c, Step(c, Bus(Pipeline.Error(error, debug))))
  {
    assert Step(c, Bus(Pipeline.Error(error, debug))) == OnError(c, error, debug);
    var r := OnError(c, error, debug);
    var halt := Command(Pipeline.SetState(Pipeline.Null));
    match c.playlist
    case None =>
      assert r.outputs == [halt, Uncaught];
    case Some(playlist) =>
      var rest := Shift(playlist);
      if rest != [] {
        assert r.outputs == [halt, Command(Pipeline.SetUri(rest[0])), Command(Pipeline.SetState(Pipeline.Playing))];
      } else if c.state == Stopped {
        assert r.outputs == [halt, Emit(PlaybackError(error, debug))];
      } else {
        assert r.outputs == [halt, Emit(PlaybackError(error, debug)), Changed(c.state, Stopped)];
        ChainOne(c.state, Stopped);
      }
  }

  lemma TagAnnounces(c: Controller, entries: seq<Pipeline.TagEntry>)
    ensures Announces(c, OnTag(c, entries))
    ensures Announces(c, Step(c, Bus(Pipeline.Tag(entries))))
  {
    assert Step(c, Bus(Pipeline.Tag(entries))) == OnTag(c, entries);
    var r := OnTag(c, entries);
    forall k | 0 <= k < |r.outputs| && r.outputs[k].Emit?
      ensures !r.outputs[k].event.StateChanged?
    {
      if k < |entries| {
        assert r.outputs[k] == Emit(TagValue(entries[k].name, entries[k].value));
      }
    }
  }

  lemma EosAnnounces(c: Controller)
    ensures Announces(c, OnEos(c))
    ensures Announces(c, Step(c, Bus(Pipeline.Eos)))
  {
    assert Step(c, Bus(Pipeline.Eos)) == OnEos(c);
    var r := OnEos(c);
    var halt := Command(Pipeline.SetState(Pipeline.Null));
    match c.playlist
    case None =>
      assert r.outputs == [halt, Uncaught];
    case Some(playlist) =>
      var rest := Shift(playlist);
      if rest != [] {
        assert r.outputs == [halt, Command(Pipeline.SetUri(rest[0])), Command(Pipeline.SetState(Pipeline.Playing))];
      } else {
        assert r.outputs == [halt, Emit(EndOfStream)];
      }
  }

  lemma StateChangeAnnounces(c: Controller, g: Pipeline.GstState)
    ensures Announces(c, OnStateChanged(c, g))
  {
    if FromGst(g) != c.state {
      ChainOne(c.state, FromGst(g));
    }
  }

  lemma StartAnnounces(c: Controller)
    ensures Announces(c, Start(c))
  {
    if !Active(c.state) {
      ChainOne(c.state, GettingMetadata);
    }
  }

  lemma StopAnnounces(c: Controller)
    ensures Announces(c, Stop(c))
  {
    if Active(c.state) {
      ChainOne(c.state, Stopped);
    }
  }

  /** Each input's `state_changed` signals report its state changes
      faithfully. */
  lemma StepAnnounces(c: Controller, i: Input)
    ensures Announces(c, Step(c, i))
  {
    match i
    case StartPressed =>
      StartAnnounces(c);
    case StopPressed =>
      StopAnnounces(c);
    case UrlSet(_) =>
      QuietAnnounces(c, i);
    case VolumeSet(_, _, _) =>
      QuietAnnounces(c, i);
    case FetchDone(_, _) =>
      QuietAnnounces(c, i);
    case Bus(m) =>
      BusAnnounces(c, m);
  }

  /** The inputs that never change the state announce nothing. */
  lemma QuietAnnounces(c: Controller, i: Input)
    requires i.UrlSet? || i.VolumeSet? || i.FetchDone?
    ensures Step(c, i).next.state == c.state
    ensures Transitions(Step(c, i).outputs) == []
    ensures Announces(c, Step(c, i))
  {
    match i
    case UrlSet(url) =>
      assert Step(c, i) == Reaction(c.(url := url), []);
    case VolumeSet(value, before, after) =>
      assert Step(c, i) == SetVolume(c, value, before, after);
    case FetchDone(url, f) =>
      assert Step(c, i) == Refreshed(c, url, f);
  }

  /** The same for each bus message. */
  lemma BusAnnounces(c: Controller, m: Pipeline.Message)
    ensures Announces(c, Step(c, Bus(m)))
  {
    match m
    case Buffering(p) =>
      BufferingAnnounces(c, p);
    case Eos =>
      EosAnnounces(c);
    case Error(e, d) =>
      ErrorAnnounces(c, e, d);
    case StateChanged(_, g, _) =>
      StateChangeAnnounces(c, g);
      assert Step(c, Bus(m)) == OnStateChanged(c, g);
    case Tag(entries) =>
      TagAnnounces(c, entries);
    case Other =>
      assert Step(c, Bus(m)) == Reaction(c, []);
  }

  /** Over any run, the `state_changed` signals tell the whole story of
      the state: read in order they lead from the first state to the last,
      each is a real change, and each carries its state's label. */
  lemma RunAnnounces(c: Controller, inputs: seq<Input>)
    ensures Chain(c.state, Transitions(Run(c, inputs).outputs), Run(c, inputs).next.state)
    ensures Labelled(Run(c, inputs).outputs)
  {
    forall d: Controller, i: Input
      ensures Announces(d, Step(d, i))
    {
      StepAnnounces(d, i);
    }
    FoldAnnounces(Step, c, inputs);
  }

  /** Bus messages that drop the playlist's head: EOS and ERROR. */
  predicate Skips(i: Input) {
    i.Bus? && (i.message.Eos? || i.message.Error?)
  }

  predicate Advances(inputs: seq<Input>) {
    forall k :: 0 <= k < |inputs| ==> Skips(inputs[k])
  }

  /** The commands that move the pipeline on to each of `uris` in turn. */
  function Replays(uris: seq<Uri>): seq<Pipeline.Command>
    decreases |uris|
  {
    if uris == [] then []
    else
      [Pipeline.SetState(Pipeline.Null), Pipeline.SetUri(uris[0]), Pipeline.SetState(Pipeline.Playing)]
      + Replays(uris[1..])
  }

  /** What EOS and ERROR alike do while more than one entry is left: stop
      the pipeline and play the next entry, silently. */
  function MoveOn(c: Controller): Reaction
    requires c.playlist.Some? && |c.playlist.value| > 1
  {
    var rest := c.playlist.value[1..];
    Reaction(c.(playlist := Some(rest)),
      [Command(Pipeline.SetState(Pipeline.Null)), Command(Pipeline.SetUri(rest[0])), Command(Pipeline.SetState(Pipeline.Playing))])
  }

  /** `r` is what moving on from `c` does, if `c` has more than one entry. */
  predicate MovesOn(c: Controller, r: Reaction) {
    c.playlist.Some? && |c.playlist.value| > 1 ==> r == MoveOn(c)
  }

  lemma MoveOnOutputs(c: Controller)
    requires c.playlist.Some? && |c.playlist.value| > 1
    ensures MoveOn(c).next == c.(playlist := Some(c.playlist.value[1..]))
    ensures Events(MoveOn(c).outputs) == []
    ensures Commands(MoveOn(c).outputs) == Replays(c.playlist.value[1..2])
  {
    var playlist := c.playlist.value;
    Triple(Command(Pipeline.SetState(Pipeline.Null)), Command(Pipeline.SetUri(playlist[1])), Command(Pipeline.SetState(Pipeline.Playing)));
    assert playlist[1..2] == [playlist[1]];
    assert [playlist[1]][1..] == [];
  }

  lemma AdvancesTail(inputs: seq<Input>)
    requires Advances(inputs) && inputs != []
    ensures Advances(inputs[1..]) && Advances(inputs[..|inputs| - 1])
  {
    forall k | 0 <= k < |inputs| - 1
      ensures inputs[1..][k] == inputs[k + 1] && inputs[..|inputs| - 1][k] == inputs[k]
    {
    }
  }

  lemma ReplaysCons(uris: seq<Uri>)
    requires uris != []
    ensures Replays(uris) == Replays([uris[0]]) + Replays(uris[1..])
  {
    assert [uris[0]][1..] == [];
  }

  /** Playing entries 1 to n is playing entry 1, then entries 1 to n - 1
      of what follows it. */
  lemma ReplaysNext(playlist: seq<Uri>, n: nat)
    requires 1 <= n < |playlist|
    ensures Replays(playlist[1..n + 1]) == Replays(playlist[1..2]) + Replays(playlist[1..][1..n])
  {
    var sent := playlist[1..n + 1];
    ReplaysCons(sent);
    assert [sent[0]] == playlist[1..2];
    assert sent[1..] == playlist[1..][1..n] by {
      assert playlist[1..][1..n] == playlist[2..n + 1];
    }
  }

  /** A fold of a step that moves on at EOS and ERROR: after k of them
      (fewer than the playlist's length) entries 1 to k have been played in
      order, the playlist has lost its first k entries, and nothing else
      has changed or been signalled. */
  lemma {:induction false} FoldAdvances(step: (Controller, Input) -> Reaction, c: Controller, playlist: seq<Uri>, inputs: seq<Input>)
    requires forall d: Controller, i: Input :: Skips(i) ==> MovesOn(d, step(d, i))
    requires c.playlist == Some(playlist) && Advances(inputs) && |inputs| < |playlist|
    ensures Fold(step, c, inputs).next == c.(playlist := Some(playlist[|inputs|..]))
    ensures Events(Fold(step, c, inputs).outputs) == []
    ensures Commands(Fold(step, c, inputs).outputs) == Replays(playlist[1..|inputs| + 1])
    decreases |inputs|
  {
    if inputs == [] {
      assert playlist[1..1] == [];
    } else {
      var r := step(c, inputs[0]);
      var rest := Fold(step, r.next, inputs[1..]);
      assert r == MoveOn(c);
      assert r.next == c.(playlist := Some(playlist[1..])) && Events(r.outputs) == []
        && Commands(r.outputs) == Replays(playlist[1..2]) by {
        MoveOnOutputs(c);
      }
      assert rest.next == c.(playlist := Some(playlist[|inputs|..])) && Events(rest.outputs) == []
        && Commands(rest.outputs) == Replays(playlist[1..][1..|inputs|]) by {
        AdvancesTail(inputs);
        FoldAdvances(step, r.next, playlist[1..], inputs[1..]);
        assert playlist[1..][|inputs| - 1..] == playlist[|inputs|..];
      }
      var all := Fold(step, c, inputs);
      assert all == Reaction(rest.next, r.outputs + rest.outputs);
      assert Events(all.outputs) == Events(r.outputs) + Events(rest.outputs)
        && Commands(all.outputs) == Commands(r.outputs) + Commands(rest.outputs) by {
        Concat(r.outputs, rest.outputs);
      }
      assert Replays(playlist[1..|inputs| + 1]) == Replays(playlist[1..2]) + Replays(playlist[1..][1..|inputs|]) by {
        ReplaysNext(playlist, |inputs|);
      }
    }
  }

  /** EOS and ERROR, with more than one entry left, move on silently. */
  lemma StepMovesOn(c: Controller, i: Input)
    requires Skips(i)
    ensures MovesOn(c, Step(c, i))
  {
  }

  /** While entries are left, each EOS or ERROR silently moves on to the
      next entry: after k of them (fewer than the playlist's length) the
      pipeline has been sent entries 1 to k in order, the playlist has lost
      its first k entries, the state is untouched and nothing is signalled. */
  lemma AdvanceThroughPlaylist(c: Controller, playlist: seq<Uri>, inputs: seq<Input>)
    requires c.playlist == Some(playlist) && Advances(inputs) && |inputs| < |playlist|
    ensures Run(c, inputs).next == c.(playlist := Some(playlist[|inputs|..]))
    ensures Events(Run(c, inputs).outputs) == []
    ensures Commands(Run(c, inputs).outputs) == Replays(playlist[1..|inputs| + 1])
  {
    forall d: Controller, i: Input | Skips(i)
      ensures MovesOn(d, Step(d, i))
    {
      StepMovesOn(d, i);
    }
    FoldAdvances(Step, c, playlist, inputs);
  }

  lemma FoldOne(step: (Controller, Input) -> Reaction, c: Controller, i: Input)
    ensures Fold(step, c, [i]) == step(c, i)
  {
    assert [i][1..] == [];
    assert step(c, i).outputs + [] == step(c, i).outputs;
  }

  /** A fold over as many EOS/ERROR messages as there are entries ends
      with the last message reaching a playlist of just the last entry,
      after every later entry has been played in order. */
  lemma FoldToLast(step: (Controller, Input) -> Reaction, c: Controller, playlist: seq<Uri>, inputs: seq<Input>)
    requires forall d: Controller, i: Input :: Skips(i) ==> MovesOn(d, step(d, i))
    requires c.playlist == Some(playlist) && playlist != [] && Advances(inputs) && |inputs| == |playlist|
    ensures
      var last := step(c.(playlist := Some([playlist[|playlist| - 1]])), inputs[|inputs| - 1]);
      && Fold(step, c, inputs).next == last.next
      && Events(Fold(step, c, inputs).outputs) == Events(last.outputs)
      && Commands(Fold(step, c, inputs).outputs) == Replays(playlist[1..]) + Commands(last.outputs)
  {
    var init := inputs[..|inputs| - 1];
    assert inputs == init + [inputs[|inputs| - 1]];
    AdvancesTail(inputs);
    FoldAdvances(step, c, playlist, init);
    assert playlist[|init|..] == [playlist[|playlist| - 1]];
    assert playlist[1..|init| + 1] == playlist[1..];
    var mid := Fold(step, c, init);
    FoldAppend(step, c, init, [inputs[|inputs| - 1]]);
    FoldOne(step, mid.next, inputs[|inputs| - 1]);
    Concat(mid.outputs, step(mid.next, inputs[|inputs| - 1]).outputs);
  }

  lemma RunToLast(c: Controller, playlist: seq<Uri>, inputs: seq<Input>)
    requires c.playlist == Some(playlist) && playlist != [] && Advances(inputs) && |inputs| == |playlist|
    ensures
      var last := Step(c.(playlist := Some([playlist[|playlist| - 1]])), inputs[|inputs| - 1]);
      && Run(c, inputs).next == last.next
      && Events(Run(c, inputs).outputs) == Events(last.outputs)
      && Commands(Run(c, inputs).outputs) == Replays(playlist[1..]) + Commands(last.outputs)
  {
    forall d: Controller, i: Input | Skips(i)
      ensures MovesOn(d, Step(d, i))
    {
      StepMovesOn(d, i);
    }
    FoldToLast(Step, c, playlist, inputs);
  }

  /** A playlist of n entries ends on exactly the n-th of n EOS/ERROR
      messages when that one is EOS: it alone is signalled, as the end of
      the stream, and the pipeline has been sent every later entry in order
      before being stopped. */
  lemma EndOfPlaylist(c: Controller, playlist: seq<Uri>, inputs: seq<Input>)
    requires c.playlist == Some(playlist) && playlist != [] && Advances(inputs) && |inputs| == |playlist|
    requires inputs[|inputs| - 1] == Bus(Pipeline.Eos)
    ensures Run(c, inputs).next == c.(playlist := Some([]))
    ensures Events(Run(c, inputs).outputs) == [EndOfStream]
    ensures Commands(Run(c, inputs).outputs) == Replays(playlist[1..]) + [Pipeline.SetState(Pipeline.Null)]
  {
    RunToLast(c, playlist, inputs);
    var before := c.(playlist := Some([playlist[|playlist| - 1]]));
    assert Shift(before.playlist.value) == [];
    assert Step(before, Bus(Pipeline.Eos)) == OnEos(before);
  }

  /** The same run ending on ERROR instead: only that error is reported,
      and the player ends STOPPED, announced unless it already was. */
  lemma FailedPlaylist(c: Controller, playlist: seq<Uri>, inputs: seq<Input>, error: string, debug: string)
    requires c.playlist == Some(playlist) && playlist != [] && Advances(inputs) && |inputs| == |playlist|
    requires inputs[|inputs| - 1] == Bus(Pipeline.Error(error, debug))
    ensures Run(c, inputs).next == c.(state := Stopped, playlist := Some([]))
    ensures Events(Run(c, inputs).outputs) == [PlaybackError(error, debug)] +
      (if c.state == Stopped then [] else [StateChanged(c.state, Stopped, "STOPPED")])
    ensures Commands(Run(c, inputs).outputs) == Replays(playlist[1..]) + [Pipeline.SetState(Pipeline.Null)]
  {
    RunToLast(c, playlist, inputs);
    var before := c.(playlist := Some([playlist[|playlist| - 1]]));
    assert Shift(before.playlist.value) == [];
    assert Step(before, Bus(Pipeline.Error(error, debug))) == OnError(before, error, debug);
  }

  /** Start then stop from idle: announce fetching, then stopping, and
      leave the player STOPPED with an empty playlist; the only pipeline
      command is the stop. */
  lemma StartThenStop(c: Controller)
    requires !Active(c.state)
    ensures Then(Start(c), Stop(Start(c).next)).next == c.(state := Stopped, playlist := Some([]))
    ensures Transitions(Then(Start(c), Stop(Start(c).next)).outputs) ==
      [(c.state, GettingMetadata), (GettingMetadata, Stopped)]
    ensures Commands(Then(Start(c), Stop(Start(c).next)).outputs) == [Pipeline.SetState(Pipeline.Null)]
    ensures Fetches(Then(Start(c), Stop(Start(c).next)).outputs) == [c.url]
  {
    Concat(Start(c).outputs, Stop(Start(c).next).outputs);
  }

  /** A fetch that completes after a stop changes neither the state nor
      the pipeline and signals nothing; it only sets the playlist back to
      `null`. */
  lemma LateFetchAfterStop(c: Controller, url: string, f: FetchResult)
    requires Active(c.state)
    ensures Then(Stop(c), Refreshed(Stop(c).next, url, f)).next == c.(state := Stopped, playlist := None)
    ensures Transitions(Then(Stop(c), Refreshed(Stop(c).next, url, f)).outputs) == [(c.state, Stopped)]
    ensures Commands(Then(Stop(c), Refreshed(Stop(c).next, url, f)).outputs) == [Pipeline.SetState(Pipeline.Null)]
  {
    Concat(Stop(c).outputs, Refreshed(Stop(c).next, url, f).outputs);
  }

  /** Stop then start from an active state: the pipeline is stopped, the
      state goes round through STOPPED back to fetching, and the station
      URL is fetched afresh. */
  lemma StopThenStart(c: Controller)
    requires Active(c.state)
    ensures Then(Stop(c), Start(Stop(c).next)).next == c.(state := GettingMetadata, playlist := Some([]))
    ensures Transitions(Then(Stop(c), Start(Stop(c).next)).outputs) ==
      [(c.state, Stopped), (Stopped, GettingMetadata)]
    ensures Commands(Then(Stop(c), Start(Stop(c).next)).outputs) == [Pipeline.SetState(Pipeline.Null)]
    ensures Fetches(Then(Stop(c), Start(Stop(c).next)).outputs) == [c.url]
  {
    Concat(Stop(c).outputs, Start(Stop(c).next).outputs);
  }

  /** Nothing ties a completion to the fetch that produced it: after a
      stop and a new start, the completion of the fetch begun before the
      stop is taken as the answer to the new one, although only the new
      one was started. */
  lemma RestartAdoptsEarlierFetch(c: Controller, url: string, f: FetchResult)
    requires Active(c.state)
    ensures Then(Then(Stop(c), Start(Stop(c).next)), Refreshed(Start(Stop(c).next).next, url, f)).next ==
      c.(state := GettingMetadata, playlist := Some(Resolve(url, f)))
    ensures Fetches(Then(Then(Stop(c), Start(Stop(c).next)), Refreshed(Start(Stop(c).next).next, url, f)).outputs) == [c.url]
  {
    var restart := Then(Stop(c), Start(Stop(c).next));
    assert restart.next == c.(state := GettingMetadata, playlist := Some([]))
      && Fetches(restart.outputs) == [c.url] by {
      StopThenStart(c);
    }
    Concat(restart.outputs, Refreshed(restart.next, url, f).outputs);
  }

  /** Volume writes of `values`, one after another, against a pipeline
      whose getter reads back exactly the volume last written: each write
      finds the value of the one before it, and the first finds `level`. */
  function VolumeWrites(level: int, values: seq<int>): seq<Input>
    decreases |values|
  {
    if values == [] then [] else [VolumeSet(values[0], level, values[0])] + VolumeWrites(values[0], values[1..])
  }

  /** The volumes among `values` that differ from the one before them
      (from `level`, for the first). */
  function VolumeChanges(level: int, values: seq<int>): seq<int>
    decreases |values|
  {
    if values == [] then []
    else (if values[0] == level then [] else [values[0]]) + VolumeChanges(values[0], values[1..])
  }

  /** The commands writing `values`, in order. */
  function VolumeCommands(values: seq<int>): (cs: seq<Pipeline.Command>)
    ensures |cs| == |values|
    ensures forall i :: 0 <= i < |values| ==> cs[i] == Pipeline.WriteVolume(values[i])
  {
    seq(|values|, i requires 0 <= i < |values| => Pipeline.WriteVolume(values[i]))
  }

  /** The `volume` signals reporting `volumes`, in order. */
  function VolumeSignals(volumes: seq<int>): (es: seq<Event>)
    ensures |es| == |volumes|
    ensures forall i :: 0 <= i < |volumes| ==> es[i] == VolumeChanged(volumes[i])
  {
    seq(|volumes|, i requires 0 <= i < |volumes| => VolumeChanged(volumes[i]))
  }

  lemma VolumeViewsSplit(v: int, head: seq<int>, tail: seq<int>, values: seq<int>)
    requires values != [] && values[0] == v
    ensures VolumeCommands(values) == [Pipeline.WriteVolume(v)] + VolumeCommands(values[1..])
    ensures VolumeSignals(head + tail) == VolumeSignals(head) + VolumeSignals(tail)
  {
  }

  /** A run of volume writes leaves the controller alone, writes every
      value in order, and signals `volume` exactly for the writes that
      change it, with the new value. */
  lemma {:induction false} VolumeRun(c: Controller, level: int, values: seq<int>)
    ensures Run(c, VolumeWrites(level, values)).next == c
    ensures Commands(Run(c, VolumeWrites(level, values)).outputs) == VolumeCommands(values)
    ensures Events(Run(c, VolumeWrites(level, values)).outputs) == VolumeSignals(VolumeChanges(level, values))
    decreases |values|
  {
    var inputs := VolumeWrites(level, values);
    if values != [] {
      var v := values[0];
      var head := if v == level then [] else [v];
      var tail := VolumeChanges(v, values[1..]);
      assert inputs[0] == VolumeSet(v, level, v) && inputs[1..] == VolumeWrites(v, values[1..]);
      var first := SetVolume(c, v, level, v);
      assert Step(c, inputs[0]) == first;
      assert Commands(first.outputs) == [Pipeline.WriteVolume(v)];
      assert Events(first.outputs) == VolumeSignals(head);
      var rest := Run(c, inputs[1..]);
      assert rest.next == c && Commands(rest.outputs) == VolumeCommands(values[1..])
        && Events(rest.outputs) == VolumeSignals(tail) by {
        VolumeRun(c, v, values[1..]);
      }
      assert Run(c, inputs) == Reaction(rest.next, first.outputs + rest.outputs);
      Concat(first.outputs, rest.outputs);
      assert VolumeChanges(level, values) == head + tail;
      VolumeViewsSplit(v, head, tail, values);
    } else {
      assert VolumeCommands(values) == [] && VolumeSignals(VolumeChanges(level, values)) == [];
    }
  }

  /** No volume is signalled exactly when no write changes the volume. */
  lemma {:induction false} VolumeChangesNone(level: int, values: seq<int>)
    ensures VolumeChanges(level, values) == [] <==> forall k :: 0 <= k < |values| ==> values[k] == level
    decreases |values|
  {
    if values != [] {
      VolumeChangesNone(values[0], values[1..]);
      assert forall k :: 0 < k < |values| ==> values[k] == values[1..][k - 1];
    }
  }

  /** Every signalled volume was written. */
  lemma {:induction false} VolumeChangesWritten(level: int, values: seq<int>)
    ensures forall k :: 0 <= k < |VolumeChanges(level, values)| ==> VolumeChanges(level, values)[k] in values
    decreases |values|
  {
    if values != [] {
      var v := values[0];
      var head := if v == level then [] else [v];
      var tail := VolumeChanges(v, values[1..]);
      VolumeChangesWritten(v, values[1..]);
      assert VolumeChanges(level, values) == head + tail;
      assert forall x :: x in values[1..] ==> x in values;
    }
  }

  /** Each signalled volume differs from the one signalled before it, and
      the first from the starting level. */
  lemma {:induction false} VolumeChangesDiffer(level: int, values: seq<int>)
    ensures VolumeChanges(level, values) != [] ==> VolumeChanges(level, values)[0] != level
    ensures forall k :: 0 < k < |VolumeChanges(level, values)| ==>
      VolumeChanges(level, values)[k] != VolumeChanges(level, values)[k - 1]
    decreases |values|
  {
    if values != [] {
      var v := values[0];
      var head := if v == level then [] else [v];
      var tail := VolumeChanges(v, values[1..]);
      VolumeChangesDiffer(v, values[1..]);
      assert VolumeChanges(level, values) == head + tail;
    }
  }

  /** The last signalled volume is the final one. */
  lemma {:induction false} VolumeChangesLast(level: int, values: seq<int>)
    ensures VolumeChanges(level, values) != [] ==>
      VolumeChanges(level, values)[|VolumeChanges(level, values)| - 1] == values[|values| - 1]
    decreases |values|
  {
    if values != [] {
      var v := values[0];
      var head := if v == level then [] else [v];
      var tail := VolumeChanges(v, values[1..]);
      VolumeChangesLast(v, values[1..]);
      VolumeChangesNone(v, values[1..]);
      assert VolumeChanges(level, values) == head + tail;
      if |values| > 1 {
        assert values[|values| - 1] == values[1..][|values| - 2];
      }
    }
  }
}
