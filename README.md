# discord-backup-util, modelled in Dafny

discord-backup-util periodically archives a directory and publishes the
archive through a Discord webhook. The archive is cut into 25 MB chunks, and
each chunk is posted as a file attachment. A shell "download script" lists
the message ids of the chunks. When that script is itself larger than one
chunk, it is chunked and published too, behind a smaller script, until one
chunk holds the top script. A final message tells the user how to fetch and
run it. A small configuration file names the webhook, the backup period
(`every 2 days 3h`), an optional password and a compression level, followed
by a `#!` shell line and the script that produces the backup.

This project models the core of that program and proves what it promises:

- `text.dfy` (module `Text`): shared text machinery.
  - UTF-8 encoding of strings, decimal rendering and Rust-style integer parsing (`u32`, `NonZeroU64`, `i64`).
  - Debug-style quoting, `trim`, `split` and `join`.
  - `str::lines` and the `writeln!` fold that rebuilds the script.
- `hook.rs`, modelled in `hook.dfy` (module `Hook`):
  - the message builder;
  - the multipart/form-data body that `Webhook::send` renders into one pre-sized buffer, with a decoder that proves the body carries exactly the rendered parts;
  - the boundary search;
  - the retry loops of `send` and `Message::edit`, run against a scripted `Network` object.
- `upload.dfy` (module `Upload`): `upload_chunked`.
  - A byte stream is read into a 25 MB buffer, one partial read at a time.
  - Each full or final chunk is sent as a file, and the caller's hook appends `;dl <id>` to a temporary script file.
  - It is proved against the specification function `Chunks`.
- `publish.dfy` (module `Publish`): the publish sequence of `upload`. It writes the level-0 script, uploads the archive, posts the advisory, publishes one script level after another until a level fits in one chunk, then posts the completion message and edits the status message. The central theorem, `ChainRecoversArchive`, says this: in a channel with distinct message ids that holds the messages the program posted, among any others, running the published one-liner yields exactly the archive bytes. This holds under the shell reading of `RunScript`: every download completes, and each level rebuilds its script in a file of its own (see "## Left out").
- `config.dfy` (module `Config`): the configuration reader.
  - the unit table;
  - the `every` duration grammar;
  - the header directive loop with its duplicate and unknown-directive errors;
  - the `#!` shell line, the script body, and the `--` flag loop of the command line.
  - Round-trip lemmas show that a configuration rendered into a file reads back as itself.

Errors that the program reports with a message and `exit(-1)` become values of `ConfigError`. A `panic!` or `expect` becomes the outcome `Panicked`. An I/O error becomes `IoFailed`.

## Model

| member | source | states |
|---|---|---|
| Hook.ContentOverwrites | src/hook.rs:9-16 | a second `content` call replaces the first; `content_maybe(Some t)` equals `content(t)`; `content_maybe(None)` clears the text; neither touches the files or the id |
| Hook.FilesKeepOrder | src/hook.rs:18-21 | attaching files one after another appends them in call order, leaving text and id alone |
| Hook.PartsShape | src/hook.rs:80-92 | there is one part per file plus one for the text when present; the text part comes first, then file `i` as the `files[i]` part with its header |
| Hook.RenderParts | src/hook.rs:80-92 | the loop builds exactly the parts list: the JSON payload first, then every file part in order, with header bytes followed by the file bytes |
| Hook.FirstFree | src/hook.rs:94-107 | the chosen candidate index is the first boundary that occurs in no part; every earlier candidate collides |
| Hook.ChooseBoundary | src/hook.rs:94-107 | draws random candidates until one occurs in no part; the boundary returned is a 32-character alphanumeric token absent from every part; no request is made meanwhile |
| Hook.PreallocatedLengthExact | src/hook.rs:109-114 | the buffer size `(len(boundary)+6)*(parts+1) + sum - 2` equals the length of the rendered body whenever there is at least one part; with no parts it is two bytes shorter than the closing delimiter |
| Hook.BodyLength | src/hook.rs:109-128 | a body of n parts with a 32-byte boundary is `38*(n+1) + sum of part lengths - 2` bytes long |
| Hook.CopyInto | src/hook.rs:120-127 | copying a slice into the buffer at an offset changes those bytes only |
| Hook.WrittenThenRest | src/hook.rs:117-128 | after each pass of the copy loop, what is written so far followed by what remains to be written is the whole body |
| Hook.AssembleBody | src/hook.rs:109-128 | fills the pre-sized buffer with delimiter, part, delimiter, ..., closing; this succeeds exactly when there is a part, and then the buffer is the body |
| Hook.DecodeBody | src/hook.rs:101-128 | when the boundary occurs in no part, splitting the body at its delimiters gives back exactly the parts |
| Hook.PostRequestShape | src/hook.rs:130-137 | the POST goes to `<url>?wait=true`, declares `Content-Length` as the body's length, and its body decodes to the parts |
| Hook.Network.Draw | src/hook.rs:95-99 | one random boundary is drawn from the candidate stream; all other state stays as it was |
| Hook.Network.Post | src/hook.rs:131-137 | one POST is logged and the next scripted reply is consumed |
| Hook.Network.Patch | src/hook.rs:42-46 | one PATCH is logged and the next scripted acceptance is consumed |
| Hook.FirstCreated | src/hook.rs:139-157 | the loop stops at the first reply that carries a parsable message; every earlier reply was an outage or garbled |
| Hook.PostUntilCreated | src/hook.rs:130-158 | the same request is reposted until the first created reply; before each repost the loop sleeps 60 s after an outage and 300 s after a garbled reply |
| Hook.Prepare | src/hook.rs:78-128 | picks the first non-colliding boundary; panics on a message with no parts, whose closing delimiter does not fit the buffer; otherwise builds the request for that boundary |
| Hook.Deliver | src/hook.rs:139-158 | follows the reply script: the message gets the parsed id, or the run panics on a non-numeric or zero id |
| Hook.Send | src/hook.rs:77-159 | its whole effect on the network, as a function of the candidates and replies: requests, sleeps, the outcome and the scripted answers left over |
| Hook.SendRequestsDecode | src/hook.rs:130-137 | every request `send` makes is the same one: a multipart body that decodes to the message's parts under the chosen boundary |
| Hook.DeliverPosts | src/hook.rs:130-137 | all retries post the identical request |
| Hook.SendAfterOutages | src/hook.rs:153-156 | after n outages and then a created reply, send returns the message with that id, having posted n+1 times and slept 60 s n times |
| Hook.DeliverAfterOutages | src/hook.rs:139-156 | the same for the delivery loop alone |
| Hook.SendPanicsOnBadId | src/hook.rs:148-150 | an id that is not a non-zero u64 panics at once |
| Hook.SendEmptyPanics | src/hook.rs:109-128 | a message with no text and no files panics before any request |
| Hook.SendDoneKeepsMessage | src/hook.rs:139-157 | a sent message keeps its text and files and gets a non-zero u64 id; there is one more post than sleeps, and each sleep is 60 or 300 s |
| Hook.FirstTrue | src/hook.rs:41-50 | the edit loop stops at the first accepted PATCH |
| Hook.EditUntilAccepted | src/hook.rs:31-51 | editing an unsent message panics without a request; otherwise the edit patches `<url>/messages/<id>` until accepted and the message then holds the new text |
| Hook.Edit | src/hook.rs:31-51 | its effect on the network: the PATCH requests and the scripted acceptances it consumes |
| Text.LinesUnlines | src/config.rs:90 | splitting `writeln!`-joined plain lines with `str::lines` gives the lines back |
| Text.SplitJoin | src/config.rs:218 | joining the pieces of a split with the separator restores the string |
| Text.JoinSplit | src/config.rs:218 | splitting a join of separator-free pieces restores the pieces |
| Text.TrimStartShape | src/config.rs:98 | `trim_start` removes exactly the leading whitespace run and leaves a suffix that starts with non-whitespace |
| Text.TrimEndShape | src/config.rs:98 | `trim_end` removes exactly the trailing whitespace run and leaves a prefix that ends with non-whitespace |
| Text.ParseI64 | src/config.rs:122 | an `i64` parse yields only values in the signed 64-bit range |
| Text.ParseI64IntText | src/config.rs:122 | every `i64` written in decimal parses back to itself |
| Text.ParseU32 | src/config.rs:175 | a `u32` parse yields only values below 2^32 |
| Text.ParseUnsignedDecimal | src/config.rs:157 | every number below the limit, written in decimal, parses back to itself |
| Text.ParseNonZeroU64 | src/hook.rs:150 | a `NonZeroU64` parse yields only values in 1 .. 2^64-1 |
| Text.AfterFirstOfKey | src/config.rs:112 | `split_once(' ')` on `key value` (key without spaces) gives exactly the value |
| Upload.ChunkSizes | src/upload.rs:31-64 | there are len/25 000 000 + 1 chunks; all are full but the last, which is shorter; there is exactly one chunk when the input is under 25 MB |
| Upload.ChunksCons | src/upload.rs:35-66 | an input of at least one chunk is its first 25 MB chunk followed by the chunks of the rest |
| Upload.ChunksConcat | src/upload.rs:35-67 | concatenating the chunks restores the stream |
| Upload.Disk.Fault | src/upload.rs:287-291 | one scripted I/O fault decision is consumed |
| Upload.ReadSize | src/upload.rs:41-48 | a read fills at most the free space and at most what is left; with space, it returns 0 exactly at end of stream |
| Upload.Reader.Read | src/upload.rs:41-53 | a read either fails and changes nothing, or copies the next n stream bytes into the buffer at the offset and advances the position by n |
| Upload.TempFile.Write | src/upload.rs:315-318 | a write appends the bytes, unless the scripted fault fails it |
| Upload.FillBuffer | src/upload.rs:36-54 | the inner read loop fills the buffer with the next stream bytes until it is full or the stream ends |
| Upload.ChunkIsSlice | src/upload.rs:56-58 | the buffer sent at step i is chunk i; it is the last chunk exactly when it is short |
| Upload.SendFile | src/upload.rs:58 | a chunk sent successfully is acknowledged as a message holding that one file, with a non-zero u64 id |
| Upload.UploadStep | src/upload.rs:36-66 | one pass of the outer loop reads chunk i, sends it under its name, and appends `;dl <id>` through the hook, or reports the error |
| Upload.UploadChunked | src/upload.rs:24-68 | on success it sends every chunk of the remaining stream, in order, under its name; the hook has appended `;dl <id>` for each; the result is the last chunk index; on failure only a prefix of the chunks was sent |
| Upload.ChunkMessagesSnoc | src/upload.rs:57-60 | sending one more chunk extends the acknowledged list by that chunk's message |
| Upload.Recorded | src/upload.rs:57-60 | the acknowledged messages and the script text grow together, one chunk and one `;dl` entry at a time |
| Upload.DlTextSnoc | src/upload.rs:314-319 | each upload appends `;dl <id>` to the script text |
| Upload.ParseDlText | src/upload.rs:314-319 | the `;dl` list written by the hook parses back to the exact id sequence |
| Upload.DlTextLength | src/upload.rs:318 | each `;dl` entry of a u64 id takes at most 24 characters |
| Publish.TrailerBytes | src/upload.rs:406 | the trailer bytes read as `;sh $TFILE;rm $TFILE` |
| Publish.HeadersDiffer | src/upload.rs:303-369 | the level-0 and upper-level script headers can be told apart, so running a script follows the right branch |
| Publish.FetchStored | src/upload.rs:303 | when the messages hold the chunks of some data under the listed ids, fetching those ids yields that data |
| Publish.SegmentStored | src/upload.rs:310-328 | the uploaded chunk messages, present in a log with distinct ids among any other messages, store the archive under the ids |
| Publish.LevelsStored | src/upload.rs:378-390 | each script level whose messages are present in a log with distinct ids is stored under its ids |
| Publish.RunLevel0Script | src/upload.rs:303-319 | running the level-0 script downloads and concatenates its listed chunks |
| Publish.RunLevelScript | src/upload.rs:369-406 | running an upper-level script fetches the lower script into `$TFILE` and runs it |
| Publish.RunLevelStep | src/upload.rs:335-416 | running level l+1 gives the same result as running level l |
| Publish.RunLevel | src/upload.rs:335-416 | running the script of any level recovers the archive |
| Publish.LevelShrinks | src/upload.rs:335-416 | a script of two or more chunks is replaced by a strictly shorter one, so the script loop ends |
| Publish.LevelHeaderRoom | src/upload.rs:335-416 | for a webhook URL of at most 6 000 000 characters the upper-level header leaves room for the shrinking argument |
| Publish.SingleChunk | src/upload.rs:391 | a script that fits in one chunk is that chunk |
| Publish.ChainSnoc | src/upload.rs:378-415 | publishing one more level extends the chain, and its messages, by that level |
| Publish.ChainRecoversArchive | src/upload.rs:281-418 | in any channel with distinct ids that contains every message the publish phase posted, with other messages before, between or after them, running the advertised one-liner reproduces exactly the archive bytes |
| Publish.SendText | src/upload.rs:331 | a text-only message is acknowledged with a non-zero u64 id |
| Publish.SetStatus | src/upload.rs:281 | the status message takes the new text; editing an unsent status panics |
| Publish.Fail | src/upload.rs:295-297 | an error path edits the status to its failure text and never reports success |
| Publish.OpenScript | src/upload.rs:285-308 | the new script file holds the level-0 header when creating and writing succeed |
| Publish.UploadArchive | src/upload.rs:310-328 | the archive's chunks are posted in order; the script gains their `;dl` entries; the chunk count is returned; a failure is reported as `Failed to upload artifact` |
| Publish.PublishArchive | src/upload.rs:285-328 | creating the level-0 script then uploading the archive: on success the script is the level-0 script over the chunk ids |
| Publish.OpenLevel | src/upload.rs:336-374 | the next level's file holds the upper-level header when creating and writing succeed |
| Publish.PublishLevel | src/upload.rs:335-414 | one pass of the script loop posts the current script's chunks; it stops when there is one chunk, and otherwise leaves the next level's script |
| Publish.ScriptStep | src/upload.rs:335-416 | one pass keeps the chain invariant: the messages so far are exactly the published levels |
| Publish.PublishScripts | src/upload.rs:335-416 | the loop ends with a complete chain whose top level is a single chunk, and returns that chunk's id |
| Publish.Announce | src/upload.rs:330-331 | the status reads `Uploading download script...` and the advisory message is posted |
| Publish.Conclude | src/upload.rs:391-418 | the completion message names the top script's id, and the status reports the chunk count |
| Publish.ScriptsThenConclude | src/upload.rs:335-418 | the script loop, then the completion message and the final status |
| Publish.PublishDownloadScript | src/upload.rs:330-418 | the advisory, the script levels and the completion message are posted in that order |
| Publish.Publish | src/upload.rs:281-420 | on success the messages posted are exactly the publish log (archive chunks, advisory, script levels, completion), and the status ends with the chunk count; each failure leaves its own status text |
| Config.FindUnitFirst | src/config.rs:163 | a unit name resolves exactly when some row lists it, and it resolves to the first such row's duration |
| Config.UnitValuesToMinute | src/config.rs:27-38 | `ms`, `s` and `m` are 1 ms, 1 000 ms and 60 000 ms |
| Config.UnitValuesHourDay | src/config.rs:39-40 | `h` and `d` are one hour and one day |
| Config.UnitValuesWeekMonth | src/config.rs:41-48 | `w` is seven days; `n` is 2 628 288 s |
| Config.UnitValueYear | src/config.rs:49-52 | `y` is 371 days |
| Config.NoSharedAlias | src/config.rs:26-53 | no unit name appears in two rows of the table |
| Config.FirstNonDigit | src/config.rs:172 | the split point of a glued token lies within the token |
| Config.NextStep | src/config.rs:157-196 | one pass of the token loop consumes one or two tokens and adds their duration, or fails with the error the whole line fails with |
| Config.ParseEvery | src/config.rs:153-197 | the loop's running sum is the duration the token list denotes, or the first error |
| Config.EveryForms | src/config.rs:157-194 | `n unit`, `nunit` and a bare `unit` each denote n units (or one unit) |
| Config.EveryNeedsUnit | src/config.rs:158-161 | a number with no unit after it fails with "unit is not specified" |
| Config.EveryAppend | src/config.rs:155-197 | the duration of concatenated token lists is the sum, and an error in the tail is kept |
| Config.Directive | src/config.rs:110-199 | an accepted directive fills exactly one slot that was empty before |
| Config.ReadDirective | src/config.rs:110-202 | the directive code computes that directive function, including the duplicate, invalid-value and unknown-directive errors |
| Config.Header | src/config.rs:97-203 | the directive loop stops at or before the end of the lines |
| Config.HeaderStops | src/config.rs:97-108 | the loop stops at the first `#!` line, and all slots it filled are extensions of the start |
| Config.HeaderRefusesTaken | src/config.rs:110-152 | a directive whose slot is already set fails the header |
| Config.HeaderRefusesRepeat | src/config.rs:110-152 | a directive repeated before the shell line fails the header |
| Config.ShellText | src/config.rs:205-216 | a shell line yields a non-empty command |
| Config.ConfigScript | src/config.rs:205-223 | an accepted file's script is the lines after the first `#!` line, each followed by a newline |
| Config.ReadConfig | src/config.rs:90-244 | reading a file's text computes the configuration the file denotes, or its error |
| Config.WebhookLine | src/config.rs:137-146 | a `webhook <url>` line sets the webhook |
| Config.PasswordLine | src/config.rs:110-119 | a `password <p>` line sets the password |
| Config.CompressionLine | src/config.rs:121-135 | a `compression <n>` line sets any i64 level |
| Config.EveryLine | src/config.rs:148-199 | an `every <n> ms` line sets that delay |
| Config.JoinWords | src/config.rs:205-218 | a shell command of plain words joins into a trimmed line that splits back into the words |
| Config.ShellLine | src/config.rs:205-218 | `#!<command>` is recognised as the shell line and gives the command back |
| Config.RenderedHeader | src/config.rs:97-203 | the rendered header lines fill exactly the configuration's slots and stop at the shell line |
| Config.HeaderRoundTrip | src/config.rs:97-244 | parsing the rendered header plus a body gives back the configuration, with that body as its script |
| Config.FileRoundTrip | src/config.rs:90-244 | the same through `str::lines` of the whole file text |
| Config.ReadFlags | src/config.rs:56-72 | the flag loop computes the flag function |
| Config.FlagsShape | src/config.rs:56-72 | the chosen path is `--`, or an argument that does not start with `--`, or `backup_config`; `setup` holds only when `--setup` was given |
| Config.FlagsBefore | src/config.rs:62-72 | flags followed by a path select that path; `setup` holds exactly when `--setup` is among the flags |
| Config.FlagsOnly | src/config.rs:58-67 | arguments made only of flags select `backup_config` |
| Config.FlagsDashDash | src/config.rs:69-71 | a flag followed by `--` stops the loop with the path `--` itself |

## Left out

- Logging, `println!`/`eprintln!` and `exit` are not modelled. A reported error becomes a `ConfigError` value, an I/O error becomes `IoFailed`, and a panic becomes `Panicked`.
- Reading the configuration file, and the `--setup` write of the sample file, are left out. `ReadConfig` takes the file's text, and `ReadFlags` takes the arguments after the executable name.
- The parts of `upload` before the publish sequence are left out: running the backup command, zipping with a password, walking the directory, and the size display (src/upload.rs:70-280). The model starts from the archive as a byte stream.
- Deleting temporary files through `Defer` is left out. The `temp.rs`, `log.rs` and `main.rs` modules are not part of this model.
- `Rc`, `Mutex` and `AtomicU64` are plain variables. With one thread they add nothing.
- The HTTP transport is a scripted `Network` object: posts and patches are answered from lists, and the random boundaries come from a list of candidates. A JSON reply is either parsable (`Created` with its id text) or not (`Garbled`).
- Hook.Send: when the scripted replies or candidates run out while the code would still loop, the outcome is `Stalled`, because the code retries forever.
- Hook.Edit: likewise `Stalled` when the scripted acceptances run out.
- Hook.Send: resends the same body and boundary on every retry, and `edit` retries without sleeping, as the code does. The logger argument that `upload` passes to `send` and `edit` is ignored, because the `send` and `edit` in `hook.rs` take none.
- `Message::reply` (src/hook.rs:53-59) is `send` under another name and is not modelled separately. `Webhook::new` only wraps the URL.
- Text.Quote: Rust's `Debug` quoting is modelled for `\t`, `\r`, `\n`, `\\`, `\"` and `\0`. Other control and non-printable characters are not escaped as Rust escapes them.
- Config.ParseEvery: durations are unbounded naturals, so the panic on `Duration` overflow is not modelled.
- Config.FirstNonDigit: `char::is_numeric` is modelled as the ASCII digits, while `u32` parsing accepts ASCII digits only in both. Tokens holding a non-ASCII numeric character such as `٣` therefore get a different error: for `٣s` the model reports an undefined duration where the code reports an invalid time; for `5٣s` it reports the unknown unit `٣s` where the code reports an invalid time; for `5٣` it reports the unknown unit `٣` where the code reports an undefined directive.
- Upload.TempFile.Write: a failed `write_all` appends nothing. A partial write before the error is not modelled.
- Publish.PublishScripts: ends because every pass consumes scripted replies. `LevelShrinks` and `LevelHeaderRoom` state the code's own reason: every pass with two or more chunks shrinks the script, for URLs up to 6 000 000 characters.
- Publish.RunScript: running the scripts is read in an idealised way. Each download either returns the whole attachment or never returns. The code's `dl` retry (src/upload.rs:303, 369) appends the attachment again after a partial download, and the model does not capture that.
- Publish.ChainRecoversArchive: each level is taken to rebuild its script in a fresh file. The upper-level header of the code assigns the literal name `TFILE=mktemp` (src/upload.rs:369), so every level shares the file `./mktemp`. With three or more levels, the level-1 script, run by `sh` from that file, executes `printf "">$TFILE` and truncates the file its own shell is still reading. The theorem covers one and two levels as the code stands, and any number of levels with a fresh temporary file per level.
