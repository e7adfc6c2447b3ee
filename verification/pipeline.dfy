/** The media pipeline (a GStreamer playbin) as the controller sees it:
    the states it reports and is told to enter, the bus messages it posts,
    and the commands the controller gives it. */
module Pipeline {
  import opened Optional

  datatype GstState = VoidPending | Null | Ready | Paused | Playing

  /** One tag of a TAG message: its name, and its value when the tag
      holds a string. */
  datatype TagEntry = TagEntry(name: string, value: Option<string>)

  /** The bus messages the controller reacts to; `Other` stands for every
      message type it ignores. */
  datatype Message =
    | Buffering(percent: int)
    | Eos
    | Error(error: string, debug: string)
    | StateChanged(oldState: GstState, newState: GstState, pending: GstState)
    | Tag(entries: seq<TagEntry>)
    | Other

  /** Commands to the pipeline. `SetUri(None)` sets the `uri` property to
      `undefined`; `WriteVolume(v)` writes `v / 100` to the `volume`
      property. */
  datatype Command =
    | SetUri(uri: Option<string>)
    | SetState(state: GstState)
    | WriteVolume(percent: int)
}
