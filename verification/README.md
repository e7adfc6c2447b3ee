# gnome-radio player core in Dafny

This project models the playback core of the gnome-radio GNOME Shell extension (`player.js`).

**Playlist sniffers.** After a station URL is fetched, the fetch result is offered to five sniffers in a fixed order: ASF, ASX, M3U, PLS and RAM. Each sniffer works in two steps:
- It validates the result: no transport error, a non-empty body, a content type from its own list, and a body test. The ASF, ASX and PLS body test is a signature at the start of the trimmed, lower-cased body. The M3U and RAM body test is a regular expression.
- It then extracts the entries with a global, case-insensitive regular expression. The ASF, M3U, PLS and RAM expressions are also multiline (`/gmi`); the ASX one is not (`/gi`).

The first sniffer that validates supplies the playlist. If none does, the playlist is the URL itself.

**Player state machine.** The player has five states: DEFAULT, STOPPED, GETTING_METADATA, BUFFERING and PLAYING.
- `start` and `stop` drive it directly.
- The completion of the fetch installs the playlist.
- Bus messages from the GStreamer `playbin` do the rest: BUFFERING, EOS, ERROR, STATE_CHANGED and TAG.
- The volume setter writes to the pipeline and reports the value it reads back.

Every operation is a pure function. It takes the controller and returns the controller afterwards plus the ordered outputs it produced. An output is one of:
- an emitted signal;
- a pipeline command (`set_property('uri', …)`, `set_state`, or a volume write);
- a fetch started;
- `Uncaught`, where the JavaScript handler dies on a `TypeError`.

Modules:
- `Optional`: the option type.
- `JsString`: the JavaScript string primitives the sniffers use:
  - line terminators and `\s` white space as ECMAScript defines them;
  - `trim`;
  - ASCII case folding;
  - `split(';')[0]`.
- `Patterns`: each of the five regular expressions as a matcher at one position, plus the global search (`exec` in a loop, or `String.prototype.match` with the `g` flag).
- `LineScan`: line-by-line extraction for the four line-based expressions, with the proof that it equals the global search.
- `Parsers`: content type, validation, extraction and the priority resolver.
- `Documents`: well-formed ASF, PLS and ASX files built from their lines (entries among other lines), and what the resolver makes of them.
- `Pipeline`: the GStreamer states, bus messages and commands.
- `Player`: the controller and its handlers.
- `PlayerRuns`: sequences of inputs (`Run`). This covers draining a playlist through EOS and ERROR messages, start/stop interleavings with a late fetch completion, and the consistency of the `state_changed` signals over any run.

These behaviours of the code are easy to miss:
- **BUFFERING.** The handler always enters BUFFERING, announcing it only if that is a change. It then reports the percentage. At 100 it enters PLAYING, announced as a change from BUFFERING.
- **Empty playlist.** An extracted playlist that is empty still counts as found, because an empty JavaScript array is truthy. The pipeline is then handed `undefined` as its URI.
- **No stale-fetch check.** Nothing identifies which fetch a completion belongs to. The only guard is `state <= STOPPED`.
  - `stop` does not cancel the fetch in flight.
  - A completion that arrives after a restart is adopted.
  - A completion that arrives while idle still resets the playlist to `null`.
- **EOS or ERROR with a `null` playlist.** This happens before any fetch completed, or after a completion that arrived while idle. The handler stops the pipeline and then throws on `this._playlist.shift()`.
- **The RAM expression `/^rtsp|https?:\/\/.*/gmi`.** It is an alternation of `^rtsp` and `https?:\/\/.*`. A line `rtsp://host/x` therefore yields the entry `rtsp`. The first `http(s)://` after it on the same line, if there is one, starts a second entry that runs to the end of the line.
- **The ASX expression.** Its greedy `(.*)?["']` makes each value run to the last quote on the line. An empty `href=""` yields an `undefined` entry only when no other quote follows on that line; otherwise the value runs to that last quote.

## Model

| member | source | states |
|---|---|---|
| JsString.SignatureIgnoresTrailingSpace | player.js:715 | Comparing the first characters of the trimmed, lower-cased body with a lower-case signature is the same as a case-insensitive prefix test after the leading white space. Trailing white space never matters. |
| Parsers.ContentType | player.js:552-558 | The header read is `Content-Type` when non-empty, else `Content-type` when non-empty, else `content-type` when present. The content type is that header cut at its first `;`: a prefix with no `;` that is either the whole header or followed by `;`. It is absent exactly when none of the three headers is read. |
| Parsers.ContentTypeDropsParameters | player.js:552-558 | A `Content-Type` of a media type followed by `;` parameters yields exactly the media type. |
| Parsers.SignatureTest | player.js:715 | For ASF, ASX and PLS, the body test holds exactly when the body, after its leading white space, starts with the signature in any letter case. |
| Parsers.ExtractEntries | player.js:732-740 | Each sniffer's extraction equals the global search of its regular expression. Every entry has that expression's shape: an M3U entry is an `http(s)://` URL to the end of its line; a RAM entry is that or the four letters `rtsp`; an ASF or PLS entry is the rest of a line; an ASX entry is `undefined` or a non-empty piece of one line. |
| Parsers.RtspEntryIsSchemeOnly | player.js:922 | A RAM line beginning with `rtsp` contributes those four letters, not the URL, as the playlist's first entry. |
| Parsers.FirstValid | player.js:303-309 | The result is the position of a validating sniffer with none validating before it. It is absent only when no sniffer validates. |
| Parsers.ResolvePicksFirst | player.js:303-315 | With no validating sniffer the playlist is the fetched URL alone. Otherwise it is the extraction of the first sniffer in ASF, ASX, M3U, PLS, RAM order that validates. |
| Patterns.QuotedValue | player.js:782 | An ASX `href` value: the match ends on a quote; a value found is non-empty, lies on one line, and has no quote after it on that line; no value means a one-character match. There is no match exactly when the line holds no quote, and the value is `undefined` exactly when the line's only quote is its first character. |
| Patterns.AsxEntries | player.js:782-790 | Every entry the ASX search collects is `undefined` or a non-empty piece of one line. |
| Patterns.AsxRefCollected | player.js:782-790 | A `<ref href="u"`, with `u` non-empty and on one line, followed on its line by no further quote, contributes exactly `u` as the next entry. The search then goes on right after the closing quote. |
| LineScan.LinesItemsIsScan | player.js:832 | For each of the four line-based expressions, collecting each line's entries in order equals the global search over the whole body. |
| LineScan.LinesItemsShape | player.js:875-880 | Every entry of a line-based playlist has its expression's shape. |
| Documents.LinesOfJoin | player.js:732-740 | For a document of lines joined by `\n` or `\r\n`, the line-based extraction is the concatenation of each line's entries. |
| Documents.KeyedExtraction | player.js:875-880 | A `[section]` header followed by lines yields exactly the URIs of its `File<n>=uri` (or `Ref<n>=uri`) lines, in order. The other lines, which start with neither the key nor `http(s)://`, contribute nothing; a final empty line stands for a trailing terminator. The `http(s)` line search finds nothing. |
| Documents.AsfDocument | player.js:303-315 | A `[Reference]` file with an allowed content type validates as ASF. The resolved playlist is the URIs of its `Ref<n>=` lines in order, whatever other lines stand among them and whether or not the last line is terminated. |
| Documents.PlsDocument | player.js:303-315 | A `[playlist]` file with an allowed content type is rejected by ASF, ASX and M3U and validates as PLS. The resolved playlist is the URIs of its `File<n>=` lines in order; `NumberOfEntries`, `Title<n>`, `Length<n>` and `Version` lines and a trailing terminator change nothing. |
| Documents.AsxDocument | player.js:748-793 | An ASX file opening with `<asx`, served with an ASX content type, is rejected by ASF even under the shared `video/x-ms-asf` type, and validates as ASX. The resolved playlist is the URIs of its `<ref href="…"` references in order, across markup lines. |
| Documents.AsxJoin | player.js:782-790 | Over lines each after its own terminator, the ASX search collects each reference's URI in order and nothing from markup. |
| Player.FromGstActivity | player.js:328-335 | A pipeline state maps to an active player state exactly when it is READY, PAUSED or PLAYING. It maps to STOPPED exactly for NULL. It never maps to GETTING_METADATA. |
| Player.Start | player.js:415-431 | When active, nothing happens. Otherwise the player enters GETTING_METADATA. The outputs are exactly the announced transition from the old state, then one fetch of the station URL: no pipeline command and no uncaught error. |
| Player.Stop | player.js:438-453 | When idle, nothing happens. Otherwise the player is STOPPED with an empty playlist. The outputs are exactly the NULL command, then the announced transition from the old state. No fetch and no cancellation. |
| Player.Refreshed | player.js:295-320 | Only the playlist changes, and nothing is emitted. While idle the playlist becomes `null` and nothing is sent. While active the resolved playlist is installed, and its first entry (`undefined` if empty) is sent, then PLAYING. |
| Player.OnBuffering | player.js:126-157 | The state ends as PLAYING at 100 % and as BUFFERING otherwise. The signals are exactly, in order: `state_changed` into BUFFERING if that is a change, the `buffering` percentage, and `state_changed` from BUFFERING to PLAYING at 100 %. No command and no fetch. |
| Player.OnEos | player.js:169-181 | A `null` playlist gives NULL then an uncaught error. Otherwise the first entry is dropped and the outputs start with NULL and hold no uncaught error. If entries remain they are exactly NULL, the next entry's URI, PLAYING, with no signal. If not, they are exactly NULL then `eos`. The state is never touched. |
| Player.OnError | player.js:193-222 | A `null` playlist gives NULL then an uncaught error. Otherwise the outputs start with NULL and hold no uncaught error. While entries remain they are exactly those of EOS. When none remain they are exactly NULL, `error` with its error and debug text, then the STOPPED transition if it is a change. |
| Player.OnStateChanged | player.js:233-250 | The player takes the state the pipeline reports. It announces it exactly when it differs from the current state. |
| Player.PutTagsKeepsLast | player.js:266-276 | After a TAG message each tag name holds the value of its last occurrence in the message, or nothing if that occurrence had no string. Names not in the message keep their value. |
| Player.OnTag | player.js:260-285 | The tag table is the old one (or an empty one) updated so that each name holds its last value. One `tags::<name>` signal per tag in order, then `tags` with the table. Nothing else changes. |
| Player.SetVolume | player.js:377-397 | The outputs are exactly the volume write, then `volume` with the reading after the write, emitted exactly when the getter's readings before and after the write differ. The controller is unchanged, since the player keeps no copy of the volume. |
| PlayerRuns.RunAnnounces | player.js:233-250 | Over any run, the `state_changed` signals read in order lead from the starting state to the final one. Each starts where the previous ended, each is a real change, and each carries its state's label. |
| PlayerRuns.AdvanceThroughPlaylist | player.js:169-178 | While more than one entry is left, each EOS or ERROR drops one entry and re-plays the next (NULL, URI, PLAYING) without any signal. |
| PlayerRuns.EndOfPlaylist | player.js:169-181 | Draining a whole playlist, ending on EOS, replays every later entry in order. It then emits `eos` once and leaves an empty playlist. |
| PlayerRuns.FailedPlaylist | player.js:193-222 | Draining a whole playlist, ending on ERROR, replays every later entry. It then reports the error once and ends STOPPED with an empty playlist. |
| PlayerRuns.StartThenStop | player.js:415-453 | From idle, `start` then `stop` announces a change to GETTING_METADATA and then to STOPPED. It sends one NULL command, starts one fetch, and leaves an empty playlist. |
| PlayerRuns.StopThenStart | player.js:415-453 | From active, `stop` then `start` announces STOPPED, then GETTING_METADATA. It sends one NULL command and one new fetch of the station URL, and leaves an empty playlist. |
| PlayerRuns.LateFetchAfterStop | player.js:295-300 | After `stop`, a late completion adds no transition and no command. The only trace it leaves is a `null` playlist where `stop` had left an empty one. |
| PlayerRuns.RestartAdoptsEarlierFetch | player.js:295-320 | After `stop` and `start`, the completion of the fetch started before the stop is still installed. Only one new fetch was started. |
| PlayerRuns.VolumeRun | player.js:377-397 | Any sequence of volume writes against a getter that reads back the last written volume leaves the controller alone, sends every write in order, and signals `volume` exactly for the writes that change the reading, with the new value. |
| PlayerRuns.VolumeChangesNone | player.js:387-396 | No `volume` signal is emitted exactly when every written value equals the starting volume. |
| PlayerRuns.VolumeChangesDiffer | player.js:387-396 | Each signalled volume differs from the previous signalled one, and the first from the starting volume. |
| PlayerRuns.VolumeChangesWritten | player.js:387-396 | Every signalled volume is one of the written values. |
| PlayerRuns.VolumeChangesLast | player.js:387-396 | When anything is signalled, the last signalled volume is the last value written. |

## Left out

- Fetching (`URLParser.refresh`, `cancel`, and the Soup got-headers, got-chunk and finished callbacks) is left out because it is network I/O. Its outcome enters the model as a `FetchResult`: the error text, the response headers and the body. The status-code-to-error mapping is not modelled.
- `URLParser.clength` is not modelled: no other code reads it.
- The GStreamer pipeline and bus are external. Bus messages are inputs and pipeline calls are commands. Message types that the dispatcher ignores are one `Other` input with no effect.
- The station URL starts as the empty string. In the code it is `undefined` until the setter runs, and starting in that state hands `undefined` to the HTTP library. That case is not modelled.
- The translation function `_()` applied to state labels is treated as the identity.
- Player.SetVolume: volumes are integers, and the getter's readings before and after the write are inputs. The `playbin.volume * 100` floating-point round trip is not modelled. The setter reads the getter a third time for the emitted value; the model assumes it equals the second reading.
- `destroy` is not modelled, nor is the UI that calls `start`, `stop` and the setters (prefs.js, ui.js and the extension entry point).
- The header table is a map from names to strings. A `null` table, for a fetch that received no headers, is not modelled. `validate` tests `error()` and then `body()` before it calls `ctype()` (player.js:703-711). A fetch with no headers either ended on a transport status that sets the error text (player.js:668-678) or was cancelled before any body arrived, so `ctype()` is never reached with a `null` table.
- Case-insensitive matching and `toLowerCase` are modelled on ASCII letters only. Without the `u` flag the regular expressions never fold a non-ASCII letter onto an ASCII one. The non-ASCII lower-casings cannot complete an ASCII signature.
- JavaScript strings are UTF-16 code units. The model uses Dafny characters, which makes no difference for the ASCII patterns here.
- The `tags` signal carries the live tag object. The model carries a copy of the table as it stands after the message.
- PlayerRuns.RestartAdoptsEarlierFetch: states the controller and the fetches but not the pipeline commands of the sequence. Those follow from `Player.Stop` and `Player.Refreshed`.
- Player.OnEos and Player.OnError: the `Uncaught` output stands for the JavaScript runtime logging the `TypeError`. What the GNOME Shell signal machinery does with it is outside the model.
- Documents.KeyedExtraction: other lines that begin with the key in some letter case (`Filename=…` in a PLS file) are not covered, although `^File\d+=` does not match them either.
- Documents.AsfDocument: the same restriction on other lines applies, and leading white space or blank lines before `[Reference]` are not covered.
- Documents.PlsDocument: the same restriction on other lines applies, and leading white space or blank lines before `[playlist]` are not covered.
