/** The playback controller: a state machine that starts a fetch of the
    station URL, turns the resolved playlist into pipeline commands, and
    follows the pipeline's bus messages, emitting signals for observers.

    Each operation is a function from the controller before to the
    controller after plus the outputs it produced, in order: emitted
    signals, pipeline commands, fetches started, and `Uncaught` where the
    handler dies on a JavaScript TypeError (the runtime logs it and the
    rest of the handler does not run). */
module Player {
  import opened Optional
  import opened Patterns
  import opened Parsers
  import Pipeline

  /** The player states; their order matters: anything above `Stopped`
      is active. */
  datatype State = Default | Stopped | GettingMetadata | Buffering | Playing

  function Rank(s: State): nat {
    match s
    case Default => 0
    case Stopped => 1
    case GettingMetadata => 2
    case Buffering => 3
    case Playing => 4
  }

  predicate Active(s: State) {
    Rank(s) > Rank(Stopped)
  }

  /** The label sent with `state_changed`. */
  function Label(s: State): string {
    match s
    case Default => "DEFAULT"
    case Stopped => "STOPPED"
    case GettingMetadata => "GETTING_METADATA"
    case Buffering => "BUFFERING"
    case Playing => "PLAYING"
  }

  /** The player state a pipeline state stands for. */
  function FromGst(g: Pipeline.GstState): State {
    match g
    case Null => Stopped
    case Ready => Buffering
    case Paused => Buffering
    case Playing => Playing
    case VoidPending => Default
  }

  /** The pipeline is active exactly when the player state it maps to is
      active, and it never maps to fetching metadata: that state belongs to
      the controller alone. */
  lemma FromGstActivity(g: Pipeline.GstState)
    ensures Active(FromGst(g)) <==> g in {Pipeline.Ready, Pipeline.Paused, Pipeline.Playing}
    ensures FromGst(g) == Stopped <==> g == Pipeline.Null
    ensures FromGst(g) != GettingMetadata
  {
  }

  datatype Event =
    | StateChanged(from: State, state: State, text: string)
    | BufferingProgress(percent: int)
    | EndOfStream
    | PlaybackError(error: string, debug: string)
    | TagValue(name: string, value: Option<string>)
    | Tags(tags: map<string, string>)
    | VolumeChanged(percent: int)

  datatype Output =
    | Emit(event: Event)
    | Command(command: Pipeline.Command)
    | Fetch(url: string)
    | Uncaught

  /** The controller's fields: the state, the playlist (`None` is `null`),
      the tag table (`None` until the first TAG message), and the station
      URL. The volume is not among them: the player keeps no copy of it and
      reads it from the pipeline each time. */
  datatype Controller = Controller(
    state: State,
    playlist: Option<seq<Uri>>,
    tags: Option<map<string, string>>,
    url: string)

  /** A fresh controller. */
  const Initial := Controller(Stopped, None, None, "")

  datatype Reaction = Reaction(next: Controller, outputs: seq<Output>)

  /** The signal announcing a change from `from` to `to`. */
  function Changed(from: State, to: State): Output {
    Emit(StateChanged(from, to, Label(to)))
  }

  function TransitionOf(o: Output): seq<(State, State)> {
    if o.Emit? && o.event.StateChanged? then [(o.event.from, o.event.state)] else []
  }

  function SignalOf(o: Output): seq<Event> {
    if o.Emit? then [o.event] else []
  }

  function CommandOf(o: Output): seq<Pipeline.Command> {
    if o.Command? then [o.command] else []
  }

  function FetchOf(o: Output): seq<string> {
    if o.Fetch? then [o.url] else []
  }

  /** The `state_changed` signals among `outputs`, as (from, to) pairs. */
  function Transitions(outputs: seq<Output>): seq<(State, State)> {
    if outputs == [] then [] else TransitionOf(outputs[0]) + Transitions(outputs[1..])
  }

  /** The signals among `outputs`. */
  function Events(outputs: seq<Output>): seq<Event> {
    if outputs == [] then [] else SignalOf(outputs[0]) + Events(outputs[1..])
  }

  /** The pipeline commands among `outputs`. */
  function Commands(outputs: seq<Output>): seq<Pipeline.Command> {
    if outputs == [] then [] else CommandOf(outputs[0]) + Commands(outputs[1..])
  }

  /** The URLs whose fetch `outputs` started. */
  function Fetches(outputs: seq<Output>): seq<string> {
    if outputs == [] then [] else FetchOf(outputs[0]) + Fetches(outputs[1..])
  }

  /** Each view of a trace is the view of its parts, in order. */
  lemma {:induction false} Concat(a: seq<Output>, b: seq<Output>)
    ensures Transitions(a + b) == Transitions(a) + Transitions(b)
    ensures Events(a + b) == Events(a) + Events(b)
    ensures Commands(a + b) == Commands(a) + Commands(b)
    ensures Fetches(a + b) == Fetches(a) + Fetches(b)
  {
    if a != [] {
      assert (a + b)[1..] == a[1..] + b;
      Concat(a[1..], b);
    } else {
      assert a + b == b;
    }
  }

  lemma Single(o: Output)
    ensures Transitions([o]) == TransitionOf(o)
    ensures Events([o]) == SignalOf(o)
    ensures Commands([o]) == CommandOf(o)
    ensures Fetches([o]) == FetchOf(o)
  {
    assert [o][1..] == [];
  }

  lemma Pair(o1: Output, o2: Output)
    ensures Transitions([o1, o2]) == TransitionOf(o1) + TransitionOf(o2)
    ensures Events([o1, o2]) == SignalOf(o1) + SignalOf(o2)
    ensures Commands([o1, o2]) == CommandOf(o1) + CommandOf(o2)
    ensures Fetches([o1, o2]) == FetchOf(o1) + FetchOf(o2)
  {
    assert [o1, o2] == [o1] + [o2];
    Concat([o1], [o2]);
    Single(o1);
    Single(o2);
  }

  lemma Triple(o1: Output, o2: Output, o3: Output)
    ensures Transitions([o1, o2, o3]) == TransitionOf(o1) + TransitionOf(o2) + TransitionOf(o3)
    ensures Events([o1, o2, o3]) == SignalOf(o1) + SignalOf(o2) + SignalOf(o3)
    ensures Commands([o1, o2, o3]) == CommandOf(o1) + CommandOf(o2) + CommandOf(o3)
    ensures Fetches([o1, o2, o3]) == FetchOf(o1) + FetchOf(o2) + FetchOf(o3)
  {
    assert [o1, o2, o3] == [o1, o2] + [o3];
    Concat([o1, o2], [o3]);
    Pair(o1, o2);
    Single(o3);
  }

  /** A trace of signals other than `state_changed` has no transitions,
      commands or fetches. */
  lemma {:induction false} SignalsOnly(outputs: seq<Output>)
    requires forall i :: 0 <= i < |outputs| ==> outputs[i].Emit? && !outputs[i].event.StateChanged?
    ensures Transitions(outputs) == [] && Commands(outputs) == [] && Fetches(outputs) == []
    decreases |outputs|
  {
    if outputs != [] {
      SignalsOnly(outputs[1..]);
    }
  }

  /** What `playlist[0]` reads: `undefined` on an empty playlist. */
  function First(playlist: seq<Uri>): Uri {
    if playlist == [] then None else playlist[0]
  }

  /** `start`: when idle, enter GETTING_METADATA, announce it, and start
      fetching the station URL; when already active, do nothing. */
  function Start(c: Controller): (r: Reaction)
    ensures Active(c.state) ==> r == Reaction(c, [])
    ensures !Active(c.state) ==>
      && r.next == c.(state := GettingMetadata)
      && r.outputs == [Changed(c.state, GettingMetadata), Fetch(c.url)]
      && Transitions(r.outputs) == [(c.state, GettingMetadata)]
      && |Events(r.outputs)| == 1
      && Fetches(r.outputs) == [c.url]
      && Commands(r.outputs) == []
  {
    if Active(c.state) then Reaction(c, [])
    else
      Pair(Changed(c.state, GettingMetadata), Fetch(c.url));
      Reaction(c.(state := GettingMetadata), [Changed(c.state, GettingMetadata), Fetch(c.url)])
  }

  /** `stop`: when active, empty the playlist, put the pipeline in NULL,
      enter STOPPED and announce it; when idle, do nothing. The fetch in
      flight, if any, is not cancelled. */
  function Stop(c: Controller): (r: Reaction)
    ensures !Active(c.state) ==> r == Reaction(c, [])
    ensures Active(c.state) ==>
      && r.next == c.(state := Stopped, playlist := Some([]))
      && r.outputs == [Command(Pipeline.SetState(Pipeline.Null)), Changed(c.state, Stopped)]
      && Commands(r.outputs) == [Pipeline.SetState(Pipeline.Null)]
      && Transitions(r.outputs) == [(c.state, Stopped)]
      && |Events(r.outputs)| == 1
      && Fetches(r.outputs) == []
  {
    if !Active(c.state) then Reaction(c, [])
    else
      Pair(Command(Pipeline.SetState(Pipeline.Null)), Changed(c.state, Stopped));
      Reaction(c.(state := Stopped, playlist := Some([])),
        [Command(Pipeline.SetState(Pipeline.Null)), Changed(c.state, Stopped)])
  }

  /** The fetch for `url` finished with `f`. The playlist is cleared first;
      if the player went idle meanwhile the completion is dropped there.
      Otherwise the resolved playlist is installed and the pipeline told to
      play its first entry; the state is left to the pipeline's messages. */
  function Refreshed(c: Controller, url: string, f: FetchResult): (r: Reaction)
    ensures r.next == c.(playlist := r.next.playlist)
    ensures Transitions(r.outputs) == [] && Events(r.outputs) == [] && Fetches(r.outputs) == []
    ensures !Active(c.state) ==> r.next.playlist == None && r.outputs == []
    ensures Active(c.state) ==>
      && r.next.playlist == Some(Resolve(url, f))
      && r.outputs == [Command(Pipeline.SetUri(First(Resolve(url, f)))), Command(Pipeline.SetState(Pipeline.Playing))]
  {
    if !Active(c.state) then Reaction(c.(playlist := None), [])
    else
      var playlist := Resolve(url, f);
      Pair(Command(Pipeline.SetUri(First(playlist))), Command(Pipeline.SetState(Pipeline.Playing)));
      Reaction(c.(playlist := Some(playlist)),
        [Command(Pipeline.SetUri(First(playlist))), Command(Pipeline.SetState(Pipeline.Playing))])
  }

  /** BUFFERING: enter BUFFERING (announced only if that is a change),
      report the percentage, and at 100 % move on to PLAYING, announced as
      a change from BUFFERING. */
  function OnBuffering(c: Controller, percent: int): (r: Reaction)
    ensures r.next == c.(state := if percent == 100 then Playing else Buffering)
    ensures r.outputs ==
      (if c.state == Buffering then [] else [Changed(c.state, Buffering)])
      + [Emit(BufferingProgress(percent))]
      + (if percent == 100 then [Changed(Buffering, Playing)] else [])
    ensures Events(r.outputs) ==
      (if c.state == Buffering then [] else [StateChanged(c.state, Buffering, Label(Buffering))])
      + [BufferingProgress(percent)]
      + (if percent == 100 then [StateChanged(Buffering, Playing, Label(Playing))] else [])
    ensures Transitions(r.outputs) ==
      (if c.state == Buffering then [] else [(c.state, Buffering)]) + (if percent == 100 then [(Buffering, Playing)] else [])
    ensures Commands(r.outputs) == [] && Fetches(r.outputs) == []
  {
    var entered := Changed(c.state, Buffering);
    var progress := Emit(BufferingProgress(percent));
    var playing := Changed(Buffering, Playing);
    if c.state == Buffering && percent != 100 then
      Single(progress);
      Reaction(c.(state := Buffering), [progress])
    else if c.state == Buffering then
      Pair(progress, playing);
      Reaction(c.(state := Playing), [progress, playing])
    else if percent != 100 then
      Pair(entered, progress);
      Reaction(c.(state := Buffering), [entered, progress])
    else
      Triple(entered, progress, playing);
      Reaction(c.(state := Playing), [entered, progress, playing])
  }

  /** The playlist after `shift`: one entry fewer, unless already empty. */
  function Shift(playlist: seq<Uri>): (rest: seq<Uri>)
    ensures playlist != [] ==> |rest| == |playlist| - 1 && rest == playlist[1..]
    ensures playlist == [] ==> rest == []
  {
    if playlist == [] then [] else playlist[1..]
  }

  /** The pipeline was stopped and the finished entry dropped; `rest`
      still holds an entry, which becomes the pipeline's uri and plays. */
  function PlayNext(c: Controller, rest: seq<Uri>): (r: Reaction)
    requires rest != []
    ensures r.next == c.(playlist := Some(rest))
    ensures r.outputs == [Command(Pipeline.SetState(Pipeline.Null)), Command(Pipeline.SetUri(rest[0])), Command(Pipeline.SetState(Pipeline.Playing))]
    ensures Uncaught !in r.outputs
    ensures Events(r.outputs) == [] && Transitions(r.outputs) == [] && Fetches(r.outputs) == []
    ensures Commands(r.outputs) == [Pipeline.SetState(Pipeline.Null), Pipeline.SetUri(rest[0]), Pipeline.SetState(Pipeline.Playing)]
  {
    var outputs := [Command(Pipeline.SetState(Pipeline.Null)), Command(Pipeline.SetUri(rest[0])), Command(Pipeline.SetState(Pipeline.Playing))];
    Triple(outputs[0], outputs[1], outputs[2]);
    Reaction(c.(playlist := Some(rest)), outputs)
  }

  /** EOS: stop the pipeline and drop the finished entry; play the next
      one if there is one, otherwise announce the end of the stream. */
  function OnEos(c: Controller): (r: Reaction)
    ensures c.playlist.None? ==>
      r.next == c && r.outputs == [Command(Pipeline.SetState(Pipeline.Null)), Uncaught]
    ensures c.playlist.Some? ==>
      var rest := Shift(c.playlist.value);
      && r.next == c.(playlist := Some(rest))
      && Uncaught !in r.outputs
      && r.outputs != [] && r.outputs[0] == Command(Pipeline.SetState(Pipeline.Null))
      && (rest != [] ==>
          r.outputs == [Command(Pipeline.SetState(Pipeline.Null)), Command(Pipeline.SetUri(rest[0])), Command(Pipeline.SetState(Pipeline.Playing))] &&
          Events(r.outputs) == [] &&
          Commands(r.outputs) == [Pipeline.SetState(Pipeline.Null), Pipeline.SetUri(rest[0]), Pipeline.SetState(Pipeline.Playing)])
      && (rest == [] ==>
          r.outputs == [Command(Pipeline.SetState(Pipeline.Null)), Emit(EndOfStream)] &&
          Events(r.outputs) == [EndOfStream] && Commands(r.outputs) == [Pipeline.SetState(Pipeline.Null)])
    ensures Transitions(r.outputs) == [] && Fetches(r.outputs) == []
  {
    var halt := Command(Pipeline.SetState(Pipeline.Null));
    match c.playlist
    case None =>
      Pair(halt, Uncaught);
      Reaction(c, [halt, Uncaught])
    case Some(playlist) =>
      var rest := Shift(playlist);
      if rest != [] then
        PlayNext(c, rest)
      else
        Pair(halt, Emit(EndOfStream));
        Reaction(c.(playlist := Some(rest)), [halt, Emit(EndOfStream)])
  }

  /** ERROR: like EOS, the failed entry is dropped and the next one tried
      silently; once none is left the error is reported and the player
      enters STOPPED, announced only if that is a change. */
  function OnError(c: Controller, error: string, debug: string): (r: Reaction)
    ensures c.playlist.None? ==>
      r.next == c && r.outputs == [Command(Pipeline.SetState(Pipeline.Null)), Uncaught]
    ensures c.playlist.Some? && Shift(c.playlist.value) != [] ==>
      var rest := Shift(c.playlist.value);
      && r.next == c.(playlist := Some(rest))
      && r.outputs == [Command(Pipeline.SetState(Pipeline.Null)), Command(Pipeline.SetUri(rest[0])), Command(Pipeline.SetState(Pipeline.Playing))]
      && Events(r.outputs) == []
      && Commands(r.outputs) == [Pipeline.SetState(Pipeline.Null), Pipeline.SetUri(rest[0]), Pipeline.SetState(Pipeline.Playing)]
    ensures c.playlist.Some? && Shift(c.playlist.value) == [] ==>
      && r.next == c.(state := Stopped, playlist := Some([]))
      && r.outputs == [Command(Pipeline.SetState(Pipeline.Null)), Emit(PlaybackError(error, debug))] +
           (if c.state == Stopped then [] else [Changed(c.state, Stopped)])
      && Events(r.outputs) == [PlaybackError(error, debug)] +
           (if c.state == Stopped then [] else [StateChanged(c.state, Stopped, Label(Stopped))])
      && Commands(r.outputs) == [Pipeline.SetState(Pipeline.Null)]
    ensures Transitions(r.outputs) ==
      if c.playlist.Some? && Shift(c.playlist.value) == [] && c.state != Stopped then [(c.state, Stopped)] else []
    ensures c.playlist.Some? ==> Uncaught !in r.outputs && r.outputs != [] && r.outputs[0] == Command(Pipeline.SetState(Pipeline.Null))
    ensures Fetches(r.outputs) == []
  {
    var halt := Command(Pipeline.SetState(Pipeline.Null));
    match c.playlist
    case None =>
      Pair(halt, Uncaught);
      Reaction(c, [halt, Uncaught])
    case Some(playlist) =>
      var rest := Shift(playlist);
      if rest != [] then
        PlayNext(c, rest)
      else
        var report := Emit(PlaybackError(error, debug));
        if c.state == Stopped then
          Pair(halt, report);
          assert Uncaught !in [halt, report];
          Reaction(c.(state := Stopped, playlist := Some(rest)), [halt, report])
        else
          var outputs := [halt, report, Changed(c.state, Stopped)];
          Triple(halt, report, outputs[2]);
          assert Uncaught !in outputs;
          Reaction(c.(state := Stopped, playlist := Some(rest)), outputs)
  }

  /** STATE_CHANGED: take over the state the pipeline reports, announcing
      it only if it differs from the current one. */
  function OnStateChanged(c: Controller, g: Pipeline.GstState): (r: Reaction)
    ensures r.next == c.(state := FromGst(g))
    ensures Transitions(r.outputs) == (if FromGst(g) == c.state then [] else [(c.state, FromGst(g))])
    ensures |Events(r.outputs)| == |r.outputs| == |Transitions(r.outputs)|
  {
    var s := FromGst(g);
    if s == c.state then Reaction(c.(state := s), [])
    else
      Single(Changed(c.state, s));
      Reaction(c.(state := s), [Changed(c.state, s)])
  }

  /** The tag table after one tag: a string value is stored, any other
      value removes the tag. */
  function PutTag(tags: map<string, string>, e: Pipeline.TagEntry): map<string, string> {
    match e.value
    case Some(v) => tags[e.name := v]
    case None => tags - {e.name}
  }

  /** The tag table after a TAG message's tags, taken in order. */
  function PutTags(tags: map<string, string>, entries: seq<Pipeline.TagEntry>): map<string, string>
    decreases |entries|
  {
    if entries == [] then tags else PutTags(PutTag(tags, entries[0]), entries[1..])
  }

  /** What the table holds for `name`, if anything. */
  function Lookup(tags: map<string, string>, name: string): Option<string> {
    if name in tags then Some(tags[name]) else None
  }

  /** What a TAG message leaves for `name`, read from its last tag of
      that name, or from the table when no tag has that name. */
  function LastTag(tags: map<string, string>, entries: seq<Pipeline.TagEntry>, name: string): Option<string>
    decreases |entries|
  {
    if entries == [] then Lookup(tags, name)
    else if entries[|entries| - 1].name == name then entries[|entries| - 1].value
    else LastTag(tags, entries[..|entries| - 1], name)
  }

  lemma {:induction false} PutTagsLast(tags: map<string, string>, entries: seq<Pipeline.TagEntry>, e: Pipeline.TagEntry)
    ensures PutTags(tags, entries + [e]) == PutTag(PutTags(tags, entries), e)
    decreases |entries|
  {
    if entries == [] {
      assert entries + [e] == [e];
    } else {
      assert (entries + [e])[1..] == entries[1..] + [e];
      PutTagsLast(PutTag(tags, entries[0]), entries[1..], e);
    }
  }

  /** Updating tag by tag leaves each name with its last value. */
  lemma {:induction false} PutTagsKeepsLast(tags: map<string, string>, entries: seq<Pipeline.TagEntry>, name: string)
    ensures Lookup(PutTags(tags, entries), name) == LastTag(tags, entries, name)
    decreases |entries|
  {
    if entries != [] {
      var init, e := entries[..|entries| - 1], entries[|entries| - 1];
      assert entries == init + [e];
      PutTagsLast(tags, init, e);
      PutTagsKeepsLast(tags, init, name);
    }
  }

  lemma PutTagsKeepsLastAll(tags: map<string, string>, entries: seq<Pipeline.TagEntry>)
    ensures forall name :: Lookup(PutTags(tags, entries), name) == LastTag(tags, entries, name)
  {
    forall name {
      PutTagsKeepsLast(tags, entries, name);
    }
  }

  /** The `tags::<name>` signals of a TAG message's tags, in order. */
  function TagSignals(entries: seq<Pipeline.TagEntry>): (out: seq<Output>)
    ensures |out| == |entries|
    ensures forall i :: 0 <= i < |entries| ==> out[i] == Emit(TagValue(entries[i].name, entries[i].value))
  {
    seq(|entries|, i requires 0 <= i < |entries| => Emit(TagValue(entries[i].name, entries[i].value)))
  }

  /** The table a TAG message starts from (`this._tags || {}`). */
  function TagBase(c: Controller): map<string, string> {
    if c.tags.Some? then c.tags.value else map[]
  }

  /** TAG: update the tag table one tag at a time, signalling each tag,
      then signal the whole table. */
  function OnTag(c: Controller, entries: seq<Pipeline.TagEntry>): (r: Reaction)
    ensures r.next.tags.Some? && r.next == c.(tags := r.next.tags)
    ensures forall name :: Lookup(r.next.tags.value, name) == LastTag(TagBase(c), entries, name)
    ensures |r.outputs| == |entries| + 1
    ensures forall i :: 0 <= i < |entries| ==> r.outputs[i] == Emit(TagValue(entries[i].name, entries[i].value))
    ensures r.outputs[|entries|] == Emit(Tags(r.next.tags.value))
    ensures Transitions(r.outputs) == [] && Commands(r.outputs) == [] && Fetches(r.outputs) == []
  {
    var tags := PutTags(TagBase(c), entries);
    PutTagsKeepsLastAll(TagBase(c), entries);
    SignalsOnly(TagSignals(entries) + [Emit(Tags(tags))]);
    Reaction(c.(tags := Some(tags)), TagSignals(entries) + [Emit(Tags(tags))])
  }

  /** The volume setter. The getter reads the pipeline's volume as a
      percentage; `before` is what it reads just before the write of
      `value / 100`, and `after` what it reads once the write is done. The
      new volume is signalled exactly when the two readings differ, and the
      controller itself does not change. */
  function SetVolume(c: Controller, value: int, before: int, after: int): (r: Reaction)
    ensures r.next == c
    ensures r.outputs == [Command(Pipeline.WriteVolume(value))] + (if after == before then [] else [Emit(VolumeChanged(after))])
    ensures Commands(r.outputs) == [Pipeline.WriteVolume(value)]
    ensures Events(r.outputs) == if after == before then [] else [VolumeChanged(after)]
    ensures Transitions(r.outputs) == [] && Fetches(r.outputs) == []
  {
    var write := [Command(Pipeline.WriteVolume(value))];
    Single(write[0]);
    if after == before then Reaction(c, write)
    else
      Concat(write, [Emit(VolumeChanged(after))]);
      Single(Emit(VolumeChanged(after)));
      Reaction(c, write + [Emit(VolumeChanged(after))])
  }

  /** Everything that can happen to the controller. */
  datatype Input =
    | StartPressed
    | StopPressed
    | UrlSet(url: string)
    | VolumeSet(value: int, before: int, after: int)
    | FetchDone(url: string, fetch: FetchResult)
    | Bus(message: Pipeline.Message)

  function Step(c: Controller, i: Input): Reaction {
    match i
    case StartPressed => Start(c)
    case StopPressed => Stop(c)
    case UrlSet(url) => Reaction(c.(url := url), [])
    case VolumeSet(value, before, after) => SetVolume(c, value, before, after)
    case FetchDone(url, f) => Refreshed(c, url, f)
    case Bus(m) =>
      match m
      case Buffering(p) => OnBuffering(c, p)
      case Eos => OnEos(c)
      case Error(e, d) => OnError(c, e, d)
      case StateChanged(_, g, _) => OnStateChanged(c, g)
      case Tag(entries) => OnTag(c, entries)
      case Other => Reaction(c, [])
  }
}
