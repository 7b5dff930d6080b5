# shell-proxy, modelled and proved in Dafny

shell-proxy runs commands on remote hosts through a local daemon. A client frames
its request, stdin and signals; the daemon keeps one SSH connection per host and
one working directory per (host, session); on the remote host `sp-serve`
supervises the child and keeps the shell state of each session in a file.

The project models these parts and proves what they are for:

| file | what it models |
|---|---|
| `Glob.dfy` | the iterative wildcard matcher and pattern lists |
| `KnownHosts.dfy` | the known_hosts scan and the host-key decision over a list of files |
| `FrameCodec.dfy` | frame encoding, its meaning, the incremental decoder |
| `StreamReader.dfy` | the decoder that pulls from a stream of short reads |
| `ExecChannel.dfy` | the daemon's wait for the exit report |
| `ShellQuote.dfy` | the quoting printer and the built command line, against the shell's tokenizer |
| `FdRelocation.dfy` | the descriptor moves between fork and exec |
| `ConnectionCache.dfy`, `SessionCwd.dfy`, `Daemon.dfy` | the daemon as an interleaving system: cache, sessions, both together |
| `StdinPipeline.dfy` | stdin and signals over all hops from client to child |
| `SignalDelivery.dfy`, `ParkedInput.dfy` | which signals still arrive: in band through serve's router, out of band past a parked forwarder |
| `Duplex.dfy` | stdin going down and output coming up at once, every lane bounded |
| `Supervisor.dfy` | serve's select loop: timeout, escalation, report |
| `OutputDrain.dfy` | serve's output side |
| `ClientRelay.dfy` | the daemon's bridge and writer |
| `ClientLoop.dfy` | the client's select loop, whose other branches drop a partly read frame |
| `EndToEnd.dfy` | output and report from the child to the client |
| `Reports.dfy` | collecting the cwd and state reports |
| `Utf8.dfy` | UTF-8, the check against the encoding |
| `SessionName.dfy`, `StateFiles.dfy` | session names, state files under concurrent saves and crashes |
| `Prelude.dfy` | options, bytes, sequence facts |

Code that changes things step by step is a class or a method with a loop, proved
against a function or predicate that says what the step means; the properties
are then proved of that function. Concurrent parts are transition systems:
every event is one atomic section between awaits, `Run` takes any list of
events, and a theorem about `Run` therefore ranges over every interleaving of
any number of tasks, hosts, sessions and processes. Classes hold the shared
fields. The methods of `Shared` and `Table` are the atomic sections; on top of
them `GetOrConnect`, `EndExecution` and `Execute` are the daemon's functions as a
whole, with arbitrary events of other tasks at every await. A method of `Tasks`
or `Sides` is one turn of one task's loop, and `Directory` holds the state files.

## Findings

Some statements one would expect are false of the code. For each the model
keeps the code, exhibits an input, and proves the exact condition.

- "The daemon forwards serve's report to the client unchanged"
  (crates/sp-proto/src/lib.rs:135-136) holds exactly for reports without an error
  of serve's own; the message of a failed spawn is lost
  (`ExecChannel.ForwardedUnchangedExactly`, `ExecChannel.SpawnErrorLost`).
- The outcome of a command can depend on how SSH splits the stream. A failing
  `EventDecoder::push` drops the frames it had completed, an Exit frame among
  them. This happens exactly for a stream that goes bad behind an Exit frame
  (`ExecChannel.SplitMattersExactly`).
- The client's loop makes its frame read anew in every turn
  (src/client.rs:227-285), and a read keeps what it has taken in its own locals
  (crates/sp-proto/src/lib.rs:261-290). A stdin or signal branch taken inside a
  frame therefore drops those bytes, and output and report can be lost with no
  read having failed. The client gets what the daemon sent, in every run,
  exactly when no such branch is taken strictly inside a frame, as is so once
  stdin and signals are at their end (`ClientLoop.RightExactly`,
  `ClientLoop.DisturbedReadLoses`, `ClientLoop.QuietTail`).
- Both directions can come to a stop with no failed hop. The client writes stdin
  inside a branch of its loop (src/client.rs:229-237) and reads no frame
  meanwhile, so a child that waits for its output to be taken before it reads on
  can leave every lane full both ways. Nothing moves exactly when everything has
  arrived or everything is full so; some run gets there exactly when the child
  waits and its output for the input less the places on the way down exceeds the
  places on the way up (`Duplex.StuckExactly`, `Duplex.WedgesExactly`). A filter
  that writes a piece per frame can wedge exactly when its input exceeds the
  places of both ways (`Duplex.FilterWedges`).
- An in-band TERM, HUP or KILL need not arrive while the child runs. Serve's
  router leaves, as its only step, at a stdin frame for a stdin pump that is
  gone, as when the child has closed its input. Any signal between the
  forwarder's lane and the router's hand can still be delivered exactly when the
  router runs, the forwarder does if the signal is not yet across, and, with the
  pump gone, no stdin frame stands in front of it
  (`SignalDelivery.DeliverableExactly`, `SignalDelivery.RouterMustLeave`,
  `SignalDelivery.DeafRouter`).
- A signal can be stuck behind stdin data on the daemon's first hop, against
  src/daemon.rs:367-368. While the forwarder's write is parked, an interrupt can
  still be requested out of band exactly when frame reader and sender run and
  the stdin lane has a place for every stdin frame in front of it
  (`ParkedInput.GetsOutExactly`, `ParkedInput.FullLaneHoldsInterrupt`).
- The timeout's TERM can be left without a KILL. Over all ways out of serve's
  loop this happens exactly when waiting for the child fails while the KILL is
  armed, that is, after the timer turn that sent TERM and before one that reached
  the end of its grace (`Supervisor.TermWithoutKillExactly`).
- Saves of state files are atomic in every interleaving exactly when no two saves
  under way share both session and pid, as hosts with a common home directory
  may; for every pair that may be shared some run leaves an empty file
  (`StateFiles.AtomicExactly`, `StateFiles.SharedPidTears`).
- The cwd report is not independent of how the pipe splits it: a terminator in
  the chunk that crosses the cap skips the cap check. The split decides exactly
  for terminated, valid reports longer than the cap by less than one read
  buffer (`Reports.SplitMattersExactly`). For the state dump the second check in
  `save_state` removes the difference (`Reports.StateIndependentOfSplit`).
- A lone argument is passed verbatim, so it comes back as that one word exactly
  when every character of it stands for itself where it is; two or more words
  always come back (`ShellQuote.BuiltCommandTokens`, `ShellQuote.LoneSplits`). A number sign or tilde
  stands for itself inside a token, a left bracket where no bracket expression
  opens. A dollar-sign never does here, since the standard leaves one that
  starts no expansion unspecified; nor do `*` and `?`, which file names may match.
- The encoder limits payloads to 32 bits, both decoders to 16 MiB; the round
  trip holds exactly up to the latter (`FrameCodec.OversizedIsRefused`).
- A certificate for a revoked key is rejected as revoked unless an unreadable
  line for the host stands above every revocation; then, in a mode that is not
  strict, it is accepted (`KnownHosts.RevokedVerdictExactly`,
  `KnownHosts.UnreadableLineHidesRevocation`).

`read_frame_as` judges the kind before the payload has arrived, `push` only on a
whole frame; both ways are in the model and agree on the frames they deliver.

## Assumptions

- The JSON codec inverts: decoding an encoding gives the value back.
- `Vec::with_capacity(len)` has capacity exactly `len`, so the payload read of
  `read_frame_as` never takes more than the payload.
- A closed SSH connection stays closed.
- `rename` is atomic; a task's code between two awaits is atomic. Where saves of
  one session could share a pid, the state-file theorems say so.
- Tokenizing follows sections 2.2.1, 2.2.2 and 2.3 of the Shell Command Language
  of POSIX.1-2017; which unquoted characters may call for an expansion follows its
  sections 2.6 and 2.13. `dup2` and `fcntl` follow its System Interfaces volume;
  UTF-8 is that of sections 3 and 4 of RFC 3629.

## Model

| member | source | states |
|---|---|---|
| Glob.MatchPattern | src/ssh.rs:418-459 | true exactly when the recursive wildcard meaning holds, although only the last star is remembered, and within (subject + 1) * (pattern + 1) iterations |
| Glob.OlderStarSubsumed | src/ssh.rs:444-455 | whatever an earlier star could still absorb, the latest one can too: why forgetting it loses no match |
| Glob.MatchPatternList | src/ssh.rs:398-414 | true exactly when some plain pattern matches and no negated one does, wherever they stand |
| Glob.CaseAndOrderIrrelevant | src/ssh.rs:395-414 | the answer depends on the patterns only as a set and never on ASCII case |
| Glob.LowerMeans | src/ssh.rs:398-410 | lower case puts together exactly the strings that differ in ASCII case only, and leaves no capital |
| Glob.ListMeans | src/ssh.rs:398-414 | a list matches exactly when an element without a leading exclamation mark stands for the host in some ASCII case, and what follows one in no element does |
| KnownHosts.RawEntryTargetsHost | src/ssh.rs:379-393 | an unparsable line names our host when its host field is unhashed and its pattern list matches |
| KnownHosts.RawTargetsMeans | src/ssh.rs:379-393 | of a line as written, marker or not: it names our host exactly when its comma-separated field is no hash and the list matches |
| KnownHosts.ScanKnownHosts | src/ssh.rs:309-375 | the one-pass scan ends in the verdict that the precedence of revocation, unreadable line, match and change assigns to the file as a whole |
| KnownHosts.VerdictUnique | src/ssh.rs:309-375 | that precedence assigns at most one verdict |
| KnownHosts.MatchedMeans | src/ssh.rs:309-375 | from the lines and the parser alone: Matched exactly when no line settles the file and a plain entry has this very key; Absent exactly when no line says anything |
| KnownHosts.ChangedMeans | src/ssh.rs:362-369 | Changed at a line exactly when nothing settles the file, no entry has the key, and that line is the first plain entry for the host with another key of the algorithm |
| KnownHosts.SettledMeans | src/ssh.rs:320-345 | a revocation of the key, or an unreadable line for the host with no match above it, settles the file exactly at the first such line |
| KnownHosts.CheckKnownHostFile | src/ssh.rs:263-284 | the scan decides; only an Absent scan or an unreadable file asks the hashed-entry fallback |
| KnownHosts.DecideHostKey | src/ssh.rs:195-255 | the first file that is not Absent decides, files behind it are not consulted, and with none strictness decides, naming the files checked |
| KnownHosts.DecidedUnique | src/ssh.rs:195-255 | the decision is determined by the files, the query and the mode |
| KnownHosts.AcceptedExactly | src/ssh.rs:195-255 | a key is accepted exactly when a file matches behind Absent ones, or all are Absent and the mode is not strict |
| KnownHosts.AcceptedByFiles | src/ssh.rs:155-284 | a plain key is accepted exactly when the first file that knows the host, by its lines or by the hashed-entry answer, has this key, or no file knows it and the mode is not strict |
| KnownHosts.RejectedByFile | src/ssh.rs:162-231 | that first file otherwise rejects with its own reason: revoked, changed (a changed hashed key included), or blocked by what cannot be read |
| KnownHosts.RejectedUnknown | src/ssh.rs:232-255 | a strict mode rejects an unknown host and names every file looked in, or that there was none |
| KnownHosts.PassedFileHasNoRevocation | src/ssh.rs:309-375 | a file that lets the decision pass holds no parsed revocation of the key, whatever the fallback answers |
| KnownHosts.AcceptedKeyNotRevoked | src/ssh.rs:195-284 | no readable file up to the deciding one revokes an accepted key |
| KnownHosts.LaterFilesIrrelevant | src/ssh.rs:205-231 | files behind the deciding one cannot change the decision |
| KnownHosts.DecideCertificate | src/ssh.rs:120-146 | the first file whose verdict is a revocation rejects the certificate with its line; without one it is accepted exactly when the mode is not strict |
| KnownHosts.RevokedVerdictExactly | src/ssh.rs:309-375 | for a certificate a file yields a revocation exactly when it holds one with no unreadable line for the host above it |
| KnownHosts.UnreadableLineHidesRevocation | src/ssh.rs:322-331 | for every key and fallback, a certificate query over the lines "h k" and "@revoked h k", of which the parser knows the second only, is accepted in non-strict mode although the file records the revocation |
| FrameCodec.EventDialectInverts | crates/sp-proto/src/lib.rs:351-385 | every event frame decodes from its own kind and payload, given a lawful JSON codec |
| FrameCodec.ExecDialectInverts | crates/sp-proto/src/lib.rs:341-375 | the same for exec frames |
| FrameCodec.LeInverts | crates/sp-proto/src/lib.rs:396-402 | the little-endian length inverts for every 32-bit value |
| FrameCodec.LeIsPlaceValue | crates/sp-proto/src/lib.rs:276 | the length is the value of its bytes as digits to the base 256, least significant first |
| FrameCodec.WireFormat | crates/sp-proto/src/lib.rs:159-175 | output, report, stdin, its end and a signal on the wire: their kind byte, that length and the payload |
| FrameCodec.DecodeExtends | crates/sp-proto/src/lib.rs:314-339 | frames decoded from a prefix stand when more bytes arrive, and only the tail is looked at again; a bad prefix stays bad |
| FrameCodec.TailBounded | crates/sp-proto/src/lib.rs:314-339 | a kept tail holds no whole frame and is shorter than 5 + MAX_PAYLOAD |
| FrameCodec.Decoder.Push | crates/sp-proto/src/lib.rs:314-339 | one push decodes buffer and chunk as the specification does and keeps the undecoded tail, or fails exactly when the specification does |
| FrameCodec.PushAll | crates/sp-proto/src/lib.rs:314-339 | pushing a list of chunks until one fails is the run that ChunkIndependent speaks of |
| FrameCodec.ChunkIndependent | crates/sp-proto/src/lib.rs:314-339 | for every stream and every split, the frames are those of the whole and the buffer is its tail; the first failing push is the one whose accumulated bytes first make the specification fail |
| FrameCodec.EncodedFront | crates/sp-proto/src/lib.rs:387-402 | an encoding followed by anything has exactly its own frame at the front |
| FrameCodec.RoundTrip | crates/sp-proto/src/lib.rs:365-402 | encoded frames followed by anything decode to themselves and then to what that decodes to |
| FrameCodec.RoundTripChunked | crates/sp-proto/src/lib.rs:314-402 | any list of frames within the limit, fed in any chunking, comes back with an empty buffer |
| FrameCodec.PrefixFree | crates/sp-proto/src/lib.rs:387-402 | no encoding is a proper prefix of another, and equal encodings are equal frames |
| FrameCodec.OversizedIsRefused | crates/sp-proto/src/lib.rs:396-402 | the encoder emits every frame whose length fits 32 bits, and it decodes back exactly when it is within MAX_PAYLOAD |
| FrameCodec.WriteEventFrame | crates/sp-proto/src/lib.rs:439-460 | succeeds exactly when the frame encodes and each of its one or two writes goes well; the sink then holds the encoder's bytes, and a front part of them when either write fails |
| StreamReader.ReadFrameAs | crates/sp-proto/src/lib.rs:249-292 | under every pattern of short reads the result is the one the stream's bytes determine, exactly the frame's bytes are consumed, and only a failing read ends otherwise |
| StreamReader.ReadUntilEnd | crates/sp-proto/src/lib.rs:249-292 | the receiving loop delivers the frames of the whole stream and its kind of end |
| StreamReader.FrontsAgree | crates/sp-proto/src/lib.rs:249-339 | reader and incremental decoder see a whole frame at the front of the same streams, and the same one |
| StreamReader.ReaderAgreesWithDecoder | crates/sp-proto/src/lib.rs:249-339 | both deliver the same frames up to the first bad one; a clean end is reported exactly when the stream ends on a frame boundary |
| StreamReader.TruncationPoint | crates/sp-proto/src/lib.rs:249-292 | an encoded list cut anywhere yields its whole frames, and a clean end exactly at a boundary |
| ExecChannel.Forward | src/remote.rs:511-525 | forwards the output of the frames up to the first Exit frame, in order, and nothing behind it |
| ExecChannel.Wait | src/remote.rs:487-550 | stops at the first chunk that makes the stream hold an Exit frame or go bad, having forwarded exactly the output before that point |
| ExecChannel.OnlyDataCounts | src/remote.rs:487-550 | only data messages before the close reach the decoder, wherever logs and statuses stand between them |
| ExecChannel.CleanStreamOutcome | src/remote.rs:500-550 | on a well-formed stream outcome and output are a function of the frames, whatever the split |
| ExecChannel.ServeReportArrives | src/remote.rs:500-550 | serve's own wire, in any split, delivers its report's code, cwd and timeout flag and exactly the frames before it |
| ExecChannel.ForwardedUnchangedExactly | src/daemon.rs:566-584 | the report sent on to the client is serve's exactly when serve's carries no error |
| ExecChannel.SpawnErrorLost | src/remote.rs:539-544 | a failed spawn reaches the client as code 254 without its message, in every split |
| ExecChannel.SplitMattersExactly | src/remote.rs:500-550 | two splits of one stream can end differently exactly when it goes bad behind an Exit frame |
| ShellQuote.QuotedWord | src/client.rs:399-407 | a quoted word, wherever in a token it starts, tokenizes to exactly the word |
| ShellQuote.PrintedWord | src/client.rs:399-417 | the same for whatever the printer chooses, bare or quoted |
| ShellQuote.QuotesOnlyWhatNeedsIt | src/client.rs:399-412 | a word is printed unchanged exactly when it is a bare word |
| ShellQuote.BareSet | src/client.rs:409-417 | the safe set, by its ASCII codes |
| ShellQuote.JoinedWords | src/main.rs:454-463 | every list of words, quoted and joined, tokenizes back to itself with nothing left for the shell to act on |
| ShellQuote.PrinterInjective | src/main.rs:454-463 | distinct argument lists give distinct command lines |
| ShellQuote.BuiltFrom | src/main.rs:421-447 | a script file keeps its text and takes the words as parameters; a lone word is the text; without words the piped script is; otherwise there is no command |
| ShellQuote.TokensWeight | src/client.rs:399-417 | tokens never outweigh their line, and weigh as much only when every character stands for itself where it is |
| ShellQuote.LoneWord | src/main.rs:436-440 | a verbatim argument is one token equal to itself exactly when it is non-empty and all of it stands for itself where it is, number signs and tildes inside a word included; a bare word is such |
| ShellQuote.LoneSplits | src/main.rs:436-440 | the lone argument `a b` comes back as two words |
| ShellQuote.LoneStays | src/main.rs:436-440 | `a#b`, which is not bare, comes back as itself |
| ShellQuote.BuiltCommandTokens | src/main.rs:421-447 | the built command gives the argument list back for two or more words always, and for one exactly under that condition |
| FdRelocation.Process.Dup2 | crates/sp-serve/src/child.rs:127-146 | dup2: the target names the source's file without FD_CLOEXEC, an equal pair is left alone, nothing else changes |
| FdRelocation.Process.DupFd | crates/sp-serve/src/child.rs:138-143 | F_DUPFD: the lowest free descriptor at or above the floor |
| FdRelocation.Process.Park | crates/sp-serve/src/child.rs:137-143 | every source has a copy on a scratch slot of its own above all targets, and nothing else changed |
| FdRelocation.Process.MoveToTargets | crates/sp-serve/src/child.rs:144-148 | the targets name the sources' original files even where a target was a source |
| FdRelocation.Process.CloseParked | crates/sp-serve/src/child.rs:149-151 | closing the scratch slots leaves the table with just the targets changed |
| FdRelocation.Process.ClearNonblock | crates/sp-serve/src/child.rs:152-160 | O_NONBLOCK is cleared on the files of 0, 1, 3, 10 and 11 and on no other |
| FdRelocation.Process.SweepCloexec | crates/sp-serve/src/child.rs:161-168 | the sweep finds nothing left to clear |
| FdRelocation.Process.Relocate | crates/sp-serve/src/child.rs:122-170 | a parallel move for any sources from 3 up, even on other pairs' targets: each target names its source's original file, every other descriptor is as before, O_NONBLOCK is cleared on the child's pipe ends only; it fails only when a system call does |
| FdRelocation.MovedExactly | crates/sp-serve/src/child.rs:127-160 | setting 0 and 1 and then the six targets is that move, and the cleared files are the five pipe ends |
| FdRelocation.ExecSees | crates/sp-serve/src/child.rs:161-170 | with everything else above stderr close-on-exec, exactly 0, 1, 2, 3 and 7 to 11 survive exec |
| ConnectionCache.BystanderKept | src/daemon.rs:624-658 | no step of one task breaks what another task relies on |
| ConnectionCache.StepKeepsInv | src/daemon.rs:624-658 | every atomic section keeps the invariant, for any number of tasks and hosts |
| ConnectionCache.EveryInterleaving | src/daemon.rs:624-658 | in every interleaving, live connections held for one host are one connection, the table's; at most one connect per host is in flight; the "another task connected first" branch is never taken |
| ConnectionCache.LiveEntriesStay | src/daemon.rs:552-564 | no step of any run evicts or overwrites an entry whose connection is alive |
| ConnectionCache.LocksAreHeldByWork | src/daemon.rs:635-658 | in every run each held first-contact lock is held by a task of its host between taking it and its last section |
| ConnectionCache.FreeLockIsTaken | src/daemon.rs:635 | a task that wants the lock can take it exactly when no other task of its host works under it |
| ConnectionCache.LockComes | src/daemon.rs:635-658 | in every run the task that holds the lock gives it back within three steps of its own, its connect failing or not, and then the one that wants it can take it |
| ConnectionCache.NewConnectionIsNew | src/daemon.rs:640-651 | a connect makes a connection that is not closed, in no entry and with no task |
| ConnectionCache.Shared.GetOrConnect | src/daemon.rs:624-658 | with anything happening at each await: a live entry there at the start is returned unless it dies; the connection returned is the host's entry unless it died; no live entry is dropped or replaced; it waits only while another task of the host works under the lock; it leaves, failed or not, holding no lock |
| ConnectionCache.Shared.Interleave | src/daemon.rs:624-658 | performing any script of sections, as far as it is possible, keeps at most one live connection and one connect per host, and inserts only where no live entry is |
| ConnectionCache.Shared.EndExecution | src/daemon.rs:552-564 | a failed execution leaves no entry for the connection that died under it, and drops none that lives, whatever reconnects meanwhile |
| SessionCwd.NoneUnderway | src/daemon.rs:325-339 | while a task holds the session lock, no other execution of the session is under way |
| SessionCwd.StepKeepsInv | src/daemon.rs:319-599 | every atomic section keeps buckets, locks and history in step |
| SessionCwd.EveryHistory | src/daemon.rs:319-599 | in every interleaving, executions of a session never overlap, and each without an explicit cwd starts at the cwd last reported before it |
| SessionCwd.ExecutionsOrdered | src/daemon.rs:325-599 | of two executions of a session, the first one's Exit frame was sent before the second one started |
| SessionCwd.SeenCwdIsUsed | src/daemon.rs:345-347 | an execution that starts after a client saw an Exit frame with a cwd starts there or at one reported later |
| SessionCwd.OtherBucketsUntouched | src/daemon.rs:670-686 | nothing that happens in one session changes another session's bucket |
| SessionCwd.FreeSessionStarts | src/daemon.rs:325-339 | a queued execution can take the session lock exactly when no other of its session is between taking and releasing it |
| SessionCwd.LockComes | src/daemon.rs:325-599 | in every run the execution that holds the lock, of the same session, gives it back within five steps of its own, however it ends, and then the queued one can take it |
| SessionCwd.Table.Execute | src/daemon.rs:319-599 | with other executions doing anything at each await, one execution starts at its explicit cwd or the one last reported, reports a new cwd before its Exit frame, no other of its session starts in between, and it ends holding no lock; or it waits, while another of its session is at work |
| Daemon.RunSplits | src/daemon.rs:279-599 | a run of the daemon is a run of each half on its own events: no death, eviction or reconnect touches a bucket |
| Daemon.EveryInterleaving | src/daemon.rs:279-599 | commands under way on one host share the cached live connection, histories are in order, and no cwd is updated before the connection is let go, eviction included |
| Daemon.SessionMovesOn | src/daemon.rs:279-599 | in every run a command that waits for its session can go on, or the one of that session that holds the lock can, its connection's release and eviction included |
| StdinPipeline.StreamKept | src/remote.rs:394-456 | passing a frame on, at any hop and with signals overtaking it, leaves the stdin stream as it was |
| StdinPipeline.StdinKept | src/remote.rs:394-456 | every event keeps delivered bytes and bytes under way equal to what was sent, Eofs behind all data, and end of input unseen before its time |
| StdinPipeline.NothingLostOrReordered | src/daemon.rs:370-418 | in every run, failures included: what the child has read, holds and has still coming is exactly what the client sent, so it has read a prefix; signals in band, and interrupts out of band, arrive in order and at most once |
| StdinPipeline.SignalsLostOnlyAtFullLanes | src/remote.rs:343-380 | in every run in which neither full signal lane drops one, all signals the client sent are delivered in band or on that way, in order |
| StdinPipeline.EofAfterAllData | crates/sp-serve/src/serve.rs:199-244 | without a failed hop the child sees end of input only behind all data |
| StdinPipeline.NeverWedged | src/remote.rs:394-456 | while the child takes what it is given, and without a failed hop, a stdin side that cannot move has delivered everything, the end of input as well, for any size of the client's pipe and SSH window |
| StdinPipeline.RestsExactly | crates/sp-serve/src/serve.rs:199-212 | whether the child reads or not: a stdin side that cannot move has delivered everything exactly when its pump holds nothing back |
| SignalDelivery.RouterGoneSilences | crates/sp-serve/src/serve.rs:233-244 | once the router has left, no run delivers any signal that was not already with the supervisor |
| SignalDelivery.BarredRun | crates/sp-serve/src/serve.rs:233-244 | with the pump gone and a stdin frame on its way, every run delivers at most the signals in front of that frame |
| SignalDelivery.DeliverableExactly | crates/sp-serve/src/serve.rs:228-249 | in every reachable state, the signal at any place of the router's hand, the SSH stream, the forwarder's hand and its in-band lane can be delivered exactly when the router runs, the forwarder does if it has still to send it, and the pump's being gone implies no stdin frame in front of it |
| SignalDelivery.RouterMustLeave | crates/sp-serve/src/serve.rs:235-244 | with a stdin frame in hand and the pump gone, leaving is enabled and no other step of the router is |
| SignalDelivery.DeafRouter | crates/sp-serve/src/serve.rs:235-238 | after the child closed its input and one more stdin frame came, the router can only leave and no in-band signal is delivered in any continuation |
| ParkedInput.GetsOutExactly | src/daemon.rs:364-418 | in every reachable state with the forwarder in a write that stays parked, an interrupt at any place before the frame reader can still be requested out of band exactly when reader and sender run and the stdin frames in front of it fit into the lane |
| ParkedInput.BlockedRun | src/daemon.rs:373-378 | with more stdin frames unread than places in the lane, every run with the write parked requests no more interrupts than those past the reader or in front of the first frame without a place |
| ParkedInput.FullLaneHoldsInterrupt | src/daemon.rs:361-378 | for every stdin chunk a state is reachable, with no hop down, in which an interrupt cannot get out |
| Duplex.StuckExactly | src/client.rs:227-263 | nothing can move exactly when everything arrived or every lane of both ways is full, the client writing and the child waiting |
| Duplex.StepKept | src/remote.rs:394-456 | every event conserves the frames on the way down and the pieces on the way up, within every lane's places, and a child that waits reads on only when its output is taken |
| Duplex.RunAhead | src/client.rs:227-263 | every event is exactly one of the steps still ahead of what there is and will be, so no run is longer than the steps ahead of its start |
| Duplex.WedgesExactly | src/client.rs:229-237 | for every size of the lanes, every child and every input: some run wedges exactly when the child waits for its output and what it says for the input less the places down exceeds the places up |
| Duplex.ElseAllArrives | src/client.rs:227-263 | otherwise every run that can go no further has brought all input to the child and all its output to the client |
| Duplex.FilterWedges | src/client.rs:229-237 | with the program's own lanes, a filter that answers each frame with a piece can wedge exactly when the input has more than 1163 frames and twice what pipes and windows hold |
| StdinPipeline.Tasks.FrameReader | src/daemon.rs:370-418 | one turn of the client-frame reader is one event, and it waits only for room or input |
| StdinPipeline.Tasks.SignalSender | src/remote.rs:343-380 | one turn of the signal sender |
| StdinPipeline.Tasks.Forward | src/remote.rs:394-456 | one turn of the forwarder: signals before stdin, only signals after the Eof |
| StdinPipeline.Tasks.Route | crates/sp-serve/src/serve.rs:228-249 | one turn of serve's router, before and behind the end of input; it leaves exactly at a stdin frame for a pump that is gone |
| StdinPipeline.Tasks.PumpStdin | crates/sp-serve/src/serve.rs:200-212 | one turn of the child's stdin pump |
| Supervisor.Execute | crates/sp-serve/src/serve.rs:287-463 | the loop, over any script of ready branches, is the fold of its turns and then the make-up KILL and the report |
| Supervisor.TurnKeepsInv | crates/sp-serve/src/serve.rs:312-383 | every turn keeps: the two deadlines are never armed together, and the timeout has sent nothing, TERM with its KILL scheduled, or both |
| Supervisor.LeavesExactly | crates/sp-serve/src/serve.rs:312-383 | told from the script alone: the loop leaves at the first tick that calls for it and for that tick's reason, and goes on exactly as long as none does |
| Supervisor.TimedOutMeans | crates/sp-serve/src/serve.rs:287-380 | a run has timed out exactly when its timeout is positive, the clock can hold it, and a timer turn taken lies at or behind it |
| Supervisor.ExitedRun | crates/sp-serve/src/serve.rs:287-456 | a run left by child exit sends one Exit frame, last; after a timeout the group got exactly one TERM and then one KILL before it, otherwise nothing; the code is 124 after a timeout, else the child's own, or 128 plus the signal |
| Supervisor.LostRun | crates/sp-serve/src/serve.rs:331-381 | a run given up on ends with KILL, sends no Exit frame, and had sent at most one TERM and one KILL for the timeout |
| Supervisor.TermWithoutKillExactly | crates/sp-serve/src/serve.rs:312-395 | over every script and way out, the timeout's TERM lacks a KILL of serve's own exactly when the wait failed with the KILL armed, which is told from the timer turns taken |
| Supervisor.FailedWaitSkipsKill | crates/sp-serve/src/serve.rs:347 | the shortest such run |
| Supervisor.SignalsForwarded | crates/sp-serve/src/serve.rs:327-330 | in every run and over every way out, the signals of the turns taken before the one that leaves are forwarded once and in order, and nothing else is |
| OutputDrain.RunKeepsInv | crates/sp-serve/src/serve.rs:173-191 | in every run each stream's bytes on the wire, in the writer, the channel, the pump and the pipe are together what the child wrote |
| OutputDrain.FinishedWire | crates/sp-serve/src/serve.rs:397-463 | a finished run's wire is frames without an Exit and then one Exit; each stream's payload is a prefix of what the child wrote, all of it when the drain saw both pumps finish |
| OutputDrain.Sides.PumpTurn | crates/sp-serve/src/serve.rs:582-605 | one turn of a pump is one event, and it waits only for room |
| OutputDrain.Sides.WriterTurn | crates/sp-serve/src/serve.rs:176-188 | one turn of the writer |
| OutputDrain.RestsExactly | crates/sp-serve/src/serve.rs:173-463 | the output side never stops short: at rest it has everything on the wire while the child runs, and the Exit frame out behind the child's exit |
| OutputDrain.DrainPumps | crates/sp-serve/src/serve.rs:613-647 | true exactly when both pumps ended before any tick that gives up; false exactly at the first tick that does; goes on exactly when no tick of the script does and not both pumps ended |
| OutputDrain.DeadlineMeans | crates/sp-serve/src/serve.rs:606-612 | the deadline in force has passed exactly when nothing was flushed for a whole grace |
| OutputDrain.GivesUpMeans | crates/sp-serve/src/serve.rs:606-647 | a drain under way gives up exactly when the writer is gone, the clock ends, or a wake-up finds a whole grace without a flush |
| ClientRelay.OutputBeforeExit | src/daemon.rs:420-598 | in every run the client has got a front part of the engine's output in order; once it has the Exit frame, which comes once and last, it has all the engine forwarded |
| ClientRelay.RestsWithExit | src/daemon.rs:420-598 | a relay with no step of its own left has given the client the Exit frame, or lost the writer |
| ClientLoop.Run | src/client.rs:227-286 | the loop, over any script of arriving bytes, stdin and signal branches and other ends, is the fold of its turns, a branch of another arm dropping the pending read's bytes |
| ClientLoop.UndisturbedTells | src/client.rs:227-286 | on any stream in any pieces, a loop not disturbed inside a frame shows and returns what the stream's frames say up to the first Exit frame, or a front part while it runs |
| ClientLoop.ClientSees | src/client.rs:245-263 | frames closed by one Exit frame, undisturbed: all their output and that report, once enough bytes have arrived and nothing else ended the loop |
| ClientLoop.ArmsGoOff | src/client.rs:229-285 | an arm goes off at the first end of its source the loop sees, and only then |
| ClientLoop.QuietTail | src/client.rs:229-285 | a loop that has closed its stdin and signal arms undisturbed stays undisturbed |
| ClientLoop.DisturbedReadLoses | src/client.rs:227-285 | for every place inside a frame and either arm: a branch taken there ends the loop with a protocol error and no output shown, although a whole Stdout and Exit frame arrive |
| ClientLoop.RightExactly | src/client.rs:227-286 | with branches allowed at any set of places: the client gets what the daemon sent, in every run on every frame list, exactly when the set has no place strictly inside a frame |
| EndToEnd.OutputReachesTheDaemon | src/remote.rs:487-550 | serve's finished wire, split in any way, gives the daemon serve's code, cwd and timeout flag, and prefixes of what the child wrote, all of it when drained |
| EndToEnd.RelayDelivers | src/client.rs:227-290 | over the whole relay, an undisturbed client that has a report has all the engine forwarded and the daemon's report |
| EndToEnd.CommandReachesTheClient | src/client.rs:227-290 | from the child's pipes to the client, when no other branch of its loop is taken inside a frame: the same prefixes, all of it when drained, and serve's report without its error |
| EndToEnd.FailureReachesTheClient | src/daemon.rs:566-584 | a stream that ends without an Exit frame reaches an undisturbed client as code 254 with the daemon's message, behind all that was forwarded |
| Utf8.WellFormedIsText | crates/sp-serve/src/serve.rs:570 | a byte string passes the check exactly when it is the encoding of some list of Unicode scalar values, in one to four bytes each |
| Reports.ReadPipe | crates/sp-serve/src/serve.rs:535-579 | the collecting loop computes Collect, and reads on to the end of the pipe unless it meets a terminator |
| Reports.CollectMeans | crates/sp-serve/src/serve.rs:535-579 | a report within the cap is taken on its own merits; one above it only if terminated, and less than a read buffer above |
| Reports.StateIndependentOfSplit | crates/sp-serve/src/serve.rs:440-443 | collecting and saving: the new state is the bytes before the first NUL or the end when they are the encoding of a non-empty text and within the cap, else the previous one, whatever the split |
| Reports.SplitMattersExactly | crates/sp-serve/src/serve.rs:548-560 | for collection alone the split decides exactly for terminated valid reports above the cap by less than a read buffer |
| SessionName.FirstBad | crates/sp-proto/src/session.rs:48-50 | the first character outside the charset, or none |
| SessionName.AllowedSet | crates/sp-proto/src/session.rs:48-50 | the charset, by its ASCII codes |
| SessionName.ParseExactly | crates/sp-proto/src/session.rs:41-52 | accepted are exactly the names of 1 to 64 allowed characters, unchanged and free of separators |
| SessionName.RejectedExactly | crates/sp-proto/src/session.rs:41-52 | which error rejects a name: empty, an encoding longer than 64 bytes, or the first character outside the charset |
| StateFiles.TmpNamesDistinct | crates/sp-serve/src/serve.rs:738 | temp names of different (session, pid) pairs differ, although names and pids run into each other |
| StateFiles.NamesNeverCollide | crates/sp-serve/src/serve.rs:657-661 | no state file is a temp file, no two sessions share a state file, all lie directly in the directory |
| StateFiles.ContentStep | crates/sp-serve/src/serve.rs:739-758 | a rename replaces its own session's content by the whole dump; no other step of any process touches any session's content |
| StateFiles.SoundKept | crates/sp-serve/src/serve.rs:715-759 | every step, crash or failure keeps the ownership of names and inodes |
| StateFiles.EveryInterleaving | crates/sp-serve/src/serve.rs:715-759 | under any saves, failures and crashes, none sharing both session and pid, a session's file is its first content or one complete dump saved for it, the last one renamed |
| StateFiles.LoadReturnsLastSaved | crates/sp-serve/src/serve.rs:670-705 | loading returns the last dump renamed for the session |
| StateFiles.OpenedFileFrozen | crates/sp-serve/src/serve.rs:674 | a reader that opened the file reads that one content to its end, whatever is saved meanwhile |
| StateFiles.SharedPidTears | crates/sp-serve/src/serve.rs:738-758 | with a shared session and pid, for every session and dump, three saves can leave the file empty |
| StateFiles.AtomicExactly | crates/sp-serve/src/serve.rs:715-759 | for any set of (session, pid) pairs that saves under way may share: every interleaving is atomic exactly when the set has no valid session in it |
| StateFiles.WholeSaveMeans | crates/sp-serve/src/serve.rs:715-759 | a save on its own publishes the whole dump exactly when every step succeeds, else leaves every session's file alone |
| StateFiles.NextCommandStartsFrom | crates/sp-serve/src/serve.rs:440-443 | collecting and saving with a willing file system: the next command starts from the reported state if it is one, else from the previous; other sessions are unaffected |
| StateFiles.TakenMeans | crates/sp-serve/src/serve.rs:745 | short writes get out all they take before the first that takes nothing, up to the whole dump |
| StateFiles.Directory.WriteAll | crates/sp-serve/src/serve.rs:745 | short writes add up to one write of the bytes taken; success exactly when that is all of them |
| StateFiles.Directory.Try | crates/sp-serve/src/serve.rs:739-749 | open, write and rename in order, up to the first failure |
| StateFiles.Directory.SaveState | crates/sp-serve/src/serve.rs:715-759 | the function is the save that WholeSaveMeans speaks of |
| StateFiles.Directory.LoadState | crates/sp-serve/src/serve.rs:670-705 | without a home an error; the state is exactly the content of a readable file that is the encoding of a non-empty text within the cap |

## Left out

- StdinPipeline.NeverWedged: the stdin side alone, with a child that takes what it is given; what becomes of the output meanwhile is in Duplex. It says that a pipeline at rest has delivered everything, not how long a run takes; promptness and the forwarder's own exit on shutdown depend on the scheduler, and only the bounded join ends it.
- SignalDelivery.DeliverableExactly: begins at the in-band lane; the lanes before it drop signals when they are full.
- Duplex.WedgesExactly: lanes are counted in whole frames, pipes and SSH windows included, both output streams as one; signals, the Eof and a timeout, which can end the child, are not in it, and the client's own standard output always takes what it is given.
- ClientLoop.Run: the 130 report of a second interrupt, a failed write and a failed read are one way out, taken at any turn.
- Supervisor.ExitedRun: time is the instant each ready branch carries; that a deadline is noticed promptly is not stated.
- OutputDrain.FinishedWire: for runs whose writer never fails. A writer that dies while the child runs ends the run in Supervisor.LostRun; one that dies later makes serve end without a whole wire.
- ClientRelay.OutputBeforeExit: the bridge and the connection's writer are steps on values, without a class of their own.
- ShellQuote.BuiltCommandTokens: tokenization and quote removal only; reserved words, assignments and aliases of the remote shell are not modelled, and a lone trailing backslash counts as unfinished.
- KnownHosts.ScanKnownHosts: the line parser and the hashed-entry checker are library code and stand as parameters, as does the split of the file into decoded lines.
- StateFiles.EveryInterleaving: permission bits are left out; a home or directory that cannot be had is a save that does not begin.
- Sockets, SSH handshake, process spawning and bash itself: steps that deliver bytes, close or fail.
- The watchdog and fatal protocol errors of the daemon's loop: they drop the engine, which is a failed hop, a failed outcome or EngineDropped here.
- The message texts of decisions and errors, and the lookup name `[host]:port`.
- Deploying and cleaning up the remote binary, configuration, transport, console, the MCP server, capture limits, timeout clamping and the authentication budget.
- The buffer capacity the decoder releases above 256 KiB, which no result depends on.
