/** The sender of rdp/charger_case_comms_stm32/dfu.py (main): a stop-and-wait protocol over a serial line. */
module DfuSender {

  datatype DfuState = Off | Start | WaitForReady | SendRecord | WaitForAck | WaitForComplete

  /** `str.find(s, word) != -1`. */
  predicate Contains(s: string, word: string) {
    StartsWith(s, word) || (s != "" && Contains(s[1..], word))
  }

  predicate StartsWith(s: string, word: string) {
    word == "" || (s != "" && s[0] == word[0] && StartsWith(s[1..], word[1..]))
  }

  /** The variables of the loop. `sent` records the index of every record written so far. */
  datatype Vars = Vars(state: DfuState, lineNo: nat, lines: seq<string>, nacks: nat, retries: nat, sent: seq<nat>)

  /** One round of the loop either goes on with new variables or dies of an IndexError. */
  datatype Rounded = Next(vars: Vars) | IndexError

  lemma EmptyLine()
    ensures !Contains("", "ACK") && !Contains("", "NACK") && !Contains("", "Error") && !Contains("", "------")
    ensures !Contains("", "Ready") && !Contains("", "Complete") && !Contains("", "(A)")
  {
  }

  // ---------------------------------------------------------------- choosing the image

  /** `int((rlen - 2) / 2)`, which truncates towards zero. */
  function Half(rlen: nat): int {
    if rlen >= 2 then (rlen - 2) / 2 else if rlen == 1 then 0 else -1
  }

  /** The two `del` statements: drop the records of the image that is running. */
  function Select(lines: seq<string>, runningA: bool): seq<string> {
    if |lines| < 2 then lines
    else if runningA then lines[..1] + lines[Half(|lines|) + 1..]
    else lines[..Half(|lines|) + 1] + lines[|lines| - 1..]
  }

  function File(header: string, a: seq<string>, b: seq<string>, tail: string): seq<string> {
    [header] + a + b + [tail]
  }

  /** The image sent is the one that is not running exactly when B has as many records as A, or one more. */
  lemma SelectsTheOtherImage(header: string, a: seq<string>, b: seq<string>, tail: string)
    ensures Select(File(header, a, b, tail), true) == [header] + b + [tail] <==> |b| == |a| || |b| == |a| + 1
    ensures Select(File(header, a, b, tail), false) == [header] + a + [tail] <==> |b| == |a| || |b| == |a| + 1
  {
    var lines := File(header, a, b, tail);
    var h := Half(|lines|);
    assert h == (|a| + |b|) / 2;
    assert |Select(lines, true)| == 1 + |lines| - (h + 1) && |Select(lines, false)| == h + 2;
    if h == |a| {
      assert lines[h + 1..] == b + [tail];
      assert lines[..h + 1] == [header] + a;
      assert lines[..1] == [header] && lines[|lines| - 1..] == [tail];
    }
  }

  // ---------------------------------------------------------------- one round of the loop

  /** What the loop can tell of the line it has read. */
  datatype Heard = Heard(aborts: bool, ready: bool, runningA: bool, nack: bool, ack: bool, complete: bool)

  const SILENCE := Heard(false, false, false, false, false, false)

  function Hear(line: string): Heard {
    if Contains(line, "DFU: ")
    then Heard(Contains(line, "Error") || Contains(line, "------"), Contains(line, "Ready"), Contains(line, "(A)"),
               Contains(line, "NACK"), Contains(line, "ACK"), Contains(line, "Complete"))
    else SILENCE
  }

  function OneRound(v: Vars, heard: Heard, late: bool): Rounded {
    var u := if heard.aborts then v.(state := Off) else v;
    match u.state
    case Off => Next(u)
    case Start => Next(u.(state := WaitForReady))
    case WaitForReady =>
      if heard.ready
      then Next(u.(state := SendRecord, lines := Select(u.lines, heard.runningA)))
      else Next(u)
    case SendRecord =>
      if u.lineNo < |u.lines| then Next(u.(state := WaitForAck, sent := u.sent + [u.lineNo])) else IndexError
    case WaitForAck =>
      if heard.nack then Next(u.(state := SendRecord, nacks := u.nacks + 1))
      else if heard.ack then
        if u.lineNo >= |u.lines| then IndexError
        else if Contains(u.lines[u.lineNo], "S7") then Next(u.(state := WaitForComplete))
        else Next(u.(state := SendRecord, lineNo := u.lineNo + 1))
      else if late then Next(u.(state := SendRecord, retries := u.retries + 1))
      else Next(u)
    case WaitForComplete =>
      if heard.complete then Next(u.(state := Off)) else Next(u)
  }

  function StartVars(lines: seq<string>): Vars {
    Vars(Start, 0, lines, 0, 0, [])
  }

  // ---------------------------------------------------------------- sender, wire and receiver together

  /** What becomes of a record that was written: it never arrives, it arrives damaged, or it is stored. */
  datatype Fate = Lost | Damaged | Stored

  datatype Reply = Ack | Nack

  /** One round: what the line read says, whether the timeout has passed, and the fate of a record written in it. */
  datatype Event = Event(heard: Heard, late: bool, fate: Fate, answered: bool)

  /** The sender, the indices of the records the receiver stored, the replies on their way, and the indices
      of the records for which the sender took an ACK; `runningA` is what the Ready line said. */
  datatype World = World(vars: Vars, stored: seq<nat>, replies: seq<Reply>, acked: seq<nat>,
                         runningA: bool, completed: bool, crashed: bool)

  predicate IsReply(heard: Heard) {
    heard.ack || heard.nack
  }

  function ReplyOf(heard: Heard): Reply {
    if heard.nack then Nack else Ack
  }

  /** A reply that is read is the oldest one on its way. */
  predicate Plausible(w: World, e: Event) {
    IsReply(e.heard) ==> w.replies != [] && ReplyOf(e.heard) == w.replies[0]
  }

  /** Replies come within the timeout or not at all. */
  predicate Prompt(w: World, e: Event) {
    e.late ==> IsReply(e.heard) || w.replies == []
  }

  function Deliver(w: World, e: Event): World {
    match e.fate
    case Lost => w
    case Damaged => if e.answered then w.(replies := w.replies + [Nack]) else w
    case Stored =>
      var kept := w.(stored := w.stored + [w.vars.lineNo]);
      if e.answered then kept.(replies := kept.replies + [Ack]) else kept
  }

  function NextWorld(w: World, e: Event): World {
    if w.crashed then w
    else
      match OneRound(w.vars, e.heard, e.late)
      case IndexError => w.(crashed := true)
      case Next(v) =>
        var read := if IsReply(e.heard) then w.(replies := if w.replies == [] then [] else w.replies[1..]) else w;
        var wired := if |v.sent| > |w.vars.sent| then Deliver(read, e) else read;
        var answered := w.vars.state == WaitForAck && v.state != Off && IsReply(e.heard) && ReplyOf(e.heard) == Ack;
        wired.(vars := v,
               acked := if answered then w.acked + [w.vars.lineNo] else w.acked,
               runningA := if w.vars.state == WaitForReady then e.heard.runningA else w.runningA,
               completed := w.completed || (w.vars.state == WaitForComplete && e.heard.complete && !e.heard.aborts))
  }

  function RunWorld(w: World, events: seq<Event>): World {
    if events == [] then w else NextWorld(RunWorld(w, events[..|events| - 1]), events[|events| - 1])
  }

  function StartWorld(lines: seq<string>): World {
    World(StartVars(lines), [], [], [], false, false, false)
  }

  ghost predicate PlausibleRun(lines: seq<string>, events: seq<Event>) {
    forall i | 0 <= i < |events| :: Plausible(RunWorld(StartWorld(lines), events[..i]), events[i])
  }

  ghost predicate PromptRun(lines: seq<string>, events: seq<Event>) {
    forall i | 0 <= i < |events| :: Prompt(RunWorld(StartWorld(lines), events[..i]), events[i])
  }

  // ---------------------------------------------------------------- the invariant

  function UpTo(n: nat): (s: seq<nat>)
    ensures |s| == n
  {
    seq(n, i => i)
  }

  /** The receiver stored records 0, 1, ... in order, the current one any number of times, none left out. */
  ghost predicate InOrder(stored: seq<nat>, current: nat) {
    && (stored != [] ==> stored[0] == 0)
    && (forall i | 0 <= i < |stored| - 1 :: stored[i] <= stored[i + 1] <= stored[i] + 1)
    && (if stored == [] then current == 0 else current <= stored[|stored| - 1] + 1 && stored[|stored| - 1] <= current)
  }

  /** The S7 record is the last of the file and the only one with "S7" in it. */
  ghost predicate EndsWithS7(lines: seq<string>) {
    && lines != [] && Contains(lines[|lines| - 1], "S7")
    && forall i | 0 <= i < |lines| - 1 :: !Contains(lines[i], "S7")
  }

  /** What holds after every round of a plausible, prompt run. */
  ghost predicate Safe(w: World, file: seq<string>) {
    var v := w.vars;
    && !w.crashed
    && (v.lines == file || v.lines == Select(file, w.runningA))
    && InOrder(w.stored, v.lineNo) && InOrder(v.sent, v.lineNo)
    && v.lineNo < |v.lines|
    && (w.completed ==> v.state == Off && v.lines == Select(file, w.runningA)
                        && w.acked == UpTo(|v.lines|) && w.stored != []
                        && w.stored[|w.stored| - 1] == |v.lines| - 1)
    && match v.state
       case Off =>
         || w.acked == UpTo(v.lineNo)
         || (w.acked == UpTo(v.lineNo + 1) && w.stored != [] && w.stored[|w.stored| - 1] == v.lineNo)
       case Start => v.lineNo == 0 && w.acked == w.stored == v.sent == [] && w.replies == [] && v.lines == file
       case WaitForReady => v.lineNo == 0 && w.acked == w.stored == v.sent == [] && w.replies == [] && v.lines == file
       case SendRecord => v.lines == Select(file, w.runningA) && EndsWithS7(v.lines) && w.acked == UpTo(v.lineNo) && w.replies == []
       case WaitForAck =>
         && v.lines == Select(file, w.runningA) && v.sent != [] && v.sent[|v.sent| - 1] == v.lineNo
         && EndsWithS7(v.lines) && w.acked == UpTo(v.lineNo) && |w.replies| <= 1
         && (|w.replies| == 1 && w.replies[0] == Ack ==> w.stored != [] && w.stored[|w.stored| - 1] == v.lineNo)
       case WaitForComplete =>
         && v.lines == Select(file, w.runningA)
         && EndsWithS7(v.lines) && v.lineNo == |v.lines| - 1 && w.acked == UpTo(|v.lines|) && w.replies == []
         && w.stored != [] && w.stored[|w.stored| - 1] == v.lineNo
  }

  /** Both images end up in front of the one S7 record. */
  ghost predicate GoodFile(file: seq<string>) {
    && |file| >= 2 && EndsWithS7(file)
  }

  lemma SelectionEndsWithS7(file: seq<string>, runningA: bool)
    requires GoodFile(file)
    ensures EndsWithS7(Select(file, runningA))
  {
    hide Contains;
    var h := Half(|file|);
    var s := Select(file, runningA);
    var skip := if runningA then h else 0;
    assert s[|s| - 1] == file[|file| - 1];
    forall i | 0 <= i < |s| - 1 ensures !Contains(s[i], "S7") {
      assert s[i] == if i == 0 then file[0] else file[i + skip];
    }
  }

  lemma StoreKeepsOrder(stored: seq<nat>, current: nat)
    requires InOrder(stored, current)
    ensures InOrder(stored + [current], current)
    ensures InOrder(stored + [current], current + 1)
  {
  }

  lemma UpToPrefix(m: nat, n: nat)
    requires m <= n
    ensures UpTo(m) <= UpTo(n)
    ensures UpTo(m) + [m] == UpTo(m + 1)
  {
  }

  lemma IdleRound(w: World, e: Event, file: seq<string>)
    requires Safe(w, file) && Plausible(w, e) && (w.vars.state == Off || w.vars.state == Start)
    ensures Safe(NextWorld(w, e), file)
  {
    hide Contains, Select;
    UpToPrefix(0, |file|);
  }

  lemma ReadyRoundWaits(w: World, e: Event, file: seq<string>)
    requires Safe(w, file) && Plausible(w, e) && w.vars.state == WaitForReady && (e.heard.aborts || !e.heard.ready)
    ensures Safe(NextWorld(w, e), file)
  {
    hide Contains, Select;
    UpToPrefix(0, |file|);
  }

  lemma ReadyRoundSelects(w: World, e: Event, file: seq<string>)
    requires GoodFile(file) && Safe(w, file) && Plausible(w, e) && w.vars.state == WaitForReady
    requires !e.heard.aborts && e.heard.ready
    ensures Safe(NextWorld(w, e), file)
  {
    SelectionEndsWithS7(file, e.heard.runningA);
    assert UpTo(0) == [];
  }

  lemma SendRoundAborts(w: World, e: Event, file: seq<string>)
    requires Safe(w, file) && Plausible(w, e) && w.vars.state == SendRecord && e.heard.aborts
    ensures Safe(NextWorld(w, e), file)
  {
    hide Contains, Select;
    UpToPrefix(w.vars.lineNo, |w.vars.lines|);
  }

  lemma SendRoundWrites(w: World, e: Event, file: seq<string>)
    requires Safe(w, file) && Plausible(w, e) && w.vars.state == SendRecord && !e.heard.aborts
    ensures Safe(NextWorld(w, e), file)
  {
    hide Contains, Select, NextWorld, OneRound, InOrder, EndsWithS7, UpTo, Plausible;
    SendRoundIs(w, e);
    StoreKeepsOrder(w.stored, w.vars.lineNo);
    StoreKeepsOrder(w.vars.sent, w.vars.lineNo);
  }

  /** With no reply on its way, none is read, and the record goes onto the wire. */
  lemma SendRoundIs(w: World, e: Event)
    requires !w.crashed && w.vars.lineNo < |w.vars.lines| && w.replies == [] && Plausible(w, e)
    requires w.vars.state == SendRecord && !e.heard.aborts
    ensures NextWorld(w, e)
            == Deliver(w, e).(vars := w.vars.(state := WaitForAck, sent := w.vars.sent + [w.vars.lineNo]))
  {
    hide Contains;
  }

  lemma AckRoundNack(w: World, e: Event, file: seq<string>)
    requires Safe(w, file) && Plausible(w, e) && w.vars.state == WaitForAck
    requires !e.heard.aborts && IsReply(e.heard) && ReplyOf(e.heard) == Nack
    ensures Safe(NextWorld(w, e), file)
  {
    assert w.replies[1..] == [];
  }

  lemma AckRoundAck(w: World, e: Event, file: seq<string>)
    requires Safe(w, file) && Plausible(w, e) && w.vars.state == WaitForAck
    requires !e.heard.aborts && IsReply(e.heard) && ReplyOf(e.heard) == Ack
    ensures Safe(NextWorld(w, e), file)
  {
    hide Contains, Select;
    var n := w.vars.lineNo;
    assert w.replies[1..] == [];
    UpToPrefix(n, n + 1);
    assert n < |w.vars.lines| - 1 <==> !Contains(w.vars.lines[n], "S7");
    StoreKeepsOrder(w.stored, n);
    StoreKeepsOrder(w.vars.sent, n);
  }

  lemma AckRoundSilent(w: World, e: Event, file: seq<string>)
    requires Safe(w, file) && Prompt(w, e) && w.vars.state == WaitForAck
    requires !e.heard.aborts && !IsReply(e.heard)
    ensures Safe(NextWorld(w, e), file)
  {
    hide Contains, Select;
  }

  lemma AckRoundAborts(w: World, e: Event, file: seq<string>)
    requires Safe(w, file) && w.vars.state == WaitForAck && e.heard.aborts
    ensures Safe(NextWorld(w, e), file)
  {
    hide Contains, Select;
    UpToPrefix(w.vars.lineNo, |w.vars.lines|);
  }

  lemma AckRound(w: World, e: Event, file: seq<string>)
    requires Safe(w, file) && Plausible(w, e) && Prompt(w, e) && w.vars.state == WaitForAck
    ensures Safe(NextWorld(w, e), file)
  {
    if e.heard.aborts {
      AckRoundAborts(w, e, file);
    } else if !IsReply(e.heard) {
      AckRoundSilent(w, e, file);
    } else if ReplyOf(e.heard) == Nack {
      AckRoundNack(w, e, file);
    } else {
      AckRoundAck(w, e, file);
    }
  }

  lemma CompleteRound(w: World, e: Event, file: seq<string>)
    requires Safe(w, file) && Plausible(w, e) && w.vars.state == WaitForComplete
    ensures Safe(NextWorld(w, e), file)
  {
    hide Contains, Select;
  }

  lemma RoundIsSafe(w: World, e: Event, file: seq<string>)
    requires GoodFile(file) && Safe(w, file) && Plausible(w, e) && Prompt(w, e)
    ensures Safe(NextWorld(w, e), file)
  {
    hide NextWorld, Contains;
    match w.vars.state
    case SendRecord =>
      if e.heard.aborts {
        SendRoundAborts(w, e, file);
      } else {
        SendRoundWrites(w, e, file);
      }
    case WaitForAck => AckRound(w, e, file);
    case WaitForComplete => CompleteRound(w, e, file);
    case WaitForReady =>
      if e.heard.aborts || !e.heard.ready {
        ReadyRoundWaits(w, e, file);
      } else {
        ReadyRoundSelects(w, e, file);
      }
    case _ => IdleRound(w, e, file);
  }

  /** A safe world does not come out of an IndexError. */
  lemma SafeRound(w: World, e: Event, file: seq<string>)
    requires Safe(w, file) && Safe(NextWorld(w, e), file)
    ensures OneRound(w.vars, e.heard, e.late) == Next(NextWorld(w, e).vars)
  {
    hide OneRound, Contains, Select;
  }

  /** Every plausible, prompt run is safe: the records acknowledged are a prefix of the selected file, the
      receiver has stored exactly them (and perhaps the current one) in order, the line index stays in range,
      and Complete means that all were acknowledged and stored. */
  lemma {:induction false} RunsAreSafe(file: seq<string>, events: seq<Event>)
    requires GoodFile(file) && PlausibleRun(file, events) && PromptRun(file, events)
    ensures Safe(RunWorld(StartWorld(file), events), file)
    decreases |events|
  {
    if events != [] {
      var before := events[..|events| - 1];
      assert forall i | 0 <= i < |before| :: before[..i] == events[..i] && before[i] == events[i];
      RunsAreSafe(file, before);
      RoundIsSafe(RunWorld(StartWorld(file), before), events[|events| - 1], file);
    }
  }

  // ---------------------------------------------------------------- the loop itself

  /** A line that is read, and whether the timeout has passed by then. */
  datatype Reading = Reading(line: string, late: bool)

  /** What becomes of a record that is written in a round. */
  datatype Outcome = Outcome(fate: Fate, answered: bool)

  function Round(reading: Reading, outcome: Outcome): Event {
    Event(Hear(reading.line), reading.late, outcome.fate, outcome.answered)
  }

  function Rounds(readings: seq<Reading>, outcomes: seq<Outcome>): (events: seq<Event>)
    requires |readings| == |outcomes|
    ensures |events| == |readings|
  {
    seq(|readings|, i requires 0 <= i < |readings| => Round(readings[i], outcomes[i]))
  }

  lemma BeforeTheFirst(file: seq<string>, rounds: seq<Event>)
    requires GoodFile(file)
    ensures RunWorld(StartWorld(file), rounds[..0]) == StartWorld(file) && Safe(StartWorld(file), file)
  {
    RunsAreSafe(file, []);
  }

  lemma RoundAt(file: seq<string>, rounds: seq<Event>, n: nat)
    requires n < |rounds| && PlausibleRun(file, rounds) && PromptRun(file, rounds)
    ensures var w := RunWorld(StartWorld(file), rounds[..n]);
            && Plausible(w, rounds[n]) && Prompt(w, rounds[n])
            && RunWorld(StartWorld(file), rounds[..n + 1]) == NextWorld(w, rounds[n])
  {
    hide NextWorld, Plausible, Prompt;
    RunAppend(StartWorld(file), rounds[..n], rounds[n]);
    assert rounds[..n + 1] == rounds[..n] + [rounds[n]];
  }

  /** main's variables and loop. Writing to the serial port appends to `sent`. */
  class Sender {
    var state: DfuState
    var lineNo: nat
    var lines: seq<string>
    var nacks: nat
    var retries: nat
    var sent: seq<nat>

    function View(): Vars
      reads this
    {
      Vars(state, lineNo, lines, nacks, retries, sent)
    }

    constructor (allLines: seq<string>)
      ensures View() == StartVars(allLines)
    {
      state, lineNo, lines, nacks, retries, sent := Start, 0, allLines, 0, 0, [];
    }

    /** One round; `late` says whether the reply timeout has passed. */
    method Iterate(serLine: string, late: bool) returns (ok: bool)
      modifies this
      ensures ok <==> OneRound(old(View()), Hear(serLine), late).Next?
      ensures ok ==> OneRound(old(View()), Hear(serLine), late) == Next(View())
    {
      hide Contains, Select;
      var line := serLine;
      if !Contains(line, "DFU: ") {
        line := "";
        EmptyLine();
      }
      if Contains(line, "Error") {
        state := Off;
      } else if Contains(line, "------") {
        state := Off;
      }
      ok := true;
      if state == Start {
        state := WaitForReady;
      } else if state == WaitForReady {
        if Contains(line, "Ready") {
          DeleteRunningImage(Contains(line, "(A)"));
          state := SendRecord;
        }
      } else if state == SendRecord {
        if lineNo >= |lines| {
          return false;
        }
        sent := sent + [lineNo];
        state := WaitForAck;
      } else if state == WaitForAck {
        if Contains(line, "NACK") {
          nacks := nacks + 1;
          state := SendRecord;
        } else if Contains(line, "ACK") {
          if lineNo >= |lines| {
            return false;
          }
          if Contains(lines[lineNo], "S7") {
            state := WaitForComplete;
          } else {
            lineNo := lineNo + 1;
            state := SendRecord;
          }
        } else if late {
          retries := retries + 1;
          state := SendRecord;
        }
      } else if state == WaitForComplete {
        if Contains(line, "Complete") {
          state := Off;
        }
      }
    }

    method DeleteRunningImage(runningA: bool)
      modifies this`lines
      ensures lines == Select(old(lines), runningA)
    {
      var rlen := |lines|;
      var s3Count := Half(rlen);
      if rlen >= 2 {
        if runningA {
          lines := lines[..1] + lines[s3Count + 1..];
        } else {
          lines := lines[..s3Count + 1] + lines[rlen - 1..];
        }
      }
    }

    /** The same with the wire and the receiver: in a plausible, prompt round from a safe world the sender does not run
        off its list, and the world stays safe. */
    method IterateSafely(reading: Reading, ghost fate: Outcome, ghost w: World, ghost file: seq<string>)
      requires GoodFile(file) && Safe(w, file) && w.vars == View()
      requires Plausible(w, Round(reading, fate)) && Prompt(w, Round(reading, fate))
      modifies this
      ensures var after := NextWorld(w, Round(reading, fate)); after.vars == View() && Safe(after, file)
    {
      hide Safe, Contains, Plausible, Prompt;
      RoundIsSafe(w, Round(reading, fate), file);
      SafeRound(w, Round(reading, fate), file);
      hide OneRound, NextWorld;
      var ok := Iterate(reading.line, reading.late);
    }

    /** main's loop, for as long as something is read: it ends in a safe world after some of the readings, all of them
        unless it has reached Off. */
    method Run(file: seq<string>, readings: seq<Reading>, ghost fates: seq<Outcome>) returns (n: nat)
      requires |fates| == |readings| && View() == StartVars(file) && GoodFile(file)
      requires PlausibleRun(file, Rounds(readings, fates)) && PromptRun(file, Rounds(readings, fates))
      modifies this
      ensures n <= |readings| && (n < |readings| ==> state == Off)
      ensures var w := RunWorld(StartWorld(file), Rounds(readings, fates)[..n]); w.vars == View() && Safe(w, file)
    {
      ghost var rounds := Rounds(readings, fates);
      ghost var w := StartWorld(file);
      BeforeTheFirst(file, rounds);
      hide Safe, Contains, Select, NextWorld, Plausible, Prompt, RunWorld, PlausibleRun, PromptRun;
      n := 0;
      while n < |readings| && state != Off
        invariant n <= |readings| && w == RunWorld(StartWorld(file), rounds[..n]) && w.vars == View() && Safe(w, file)
      {
        RoundAt(file, rounds, n);
        IterateSafely(readings[n], fates[n], w, file);
        w := NextWorld(w, rounds[n]);
        n := n + 1;
      }
    }
  }

  /** A completed run has stored every record it selected, each at least once, in order. */
  lemma CompletedRunsStoreAll(file: seq<string>, events: seq<Event>)
    requires GoodFile(file) && PlausibleRun(file, events) && PromptRun(file, events)
    requires RunWorld(StartWorld(file), events).completed
    ensures var w := RunWorld(StartWorld(file), events);
            && w.vars.lines == Select(file, w.runningA) && w.acked == UpTo(|w.vars.lines|)
            && forall k | 0 <= k < |w.vars.lines| :: k in w.stored
  {
    RunsAreSafe(file, events);
    var w := RunWorld(StartWorld(file), events);
    forall k: nat | k < |w.vars.lines| ensures k in w.stored {
      NoneLeftOut(w.stored, k);
    }
  }

  /** With halves that Select can tell apart, what was stored is the image that was not running. */
  lemma {:induction false} CompletedRunsDeliver(header: string, a: seq<string>, b: seq<string>, tail: string, events: seq<Event>)
    requires var file := File(header, a, b, tail);
             GoodFile(file) && PlausibleRun(file, events) && PromptRun(file, events)
    requires |b| == |a| || |b| == |a| + 1
    requires RunWorld(StartWorld(File(header, a, b, tail)), events).completed
    ensures var w := RunWorld(StartWorld(File(header, a, b, tail)), events);
            && w.vars.lines == [header] + (if w.runningA then b else a) + [tail]
            && forall k | 0 <= k < |w.vars.lines| :: k in w.stored
  {
    CompletedRunsStoreAll(File(header, a, b, tail), events);
    SelectsTheOtherImage(header, a, b, tail);
  }

  lemma {:induction false} NoneLeftOut(stored: seq<nat>, k: nat)
    requires stored != [] && stored[0] == 0 && k <= stored[|stored| - 1]
    requires forall i | 0 <= i < |stored| - 1 :: stored[i] <= stored[i + 1] <= stored[i] + 1
    ensures k in stored
    decreases |stored|
  {
    if k < stored[|stored| - 1] {
      assert |stored| > 1;
      var before := stored[..|stored| - 1];
      assert forall i | 0 <= i < |before| :: before[i] == stored[i];
      NoneLeftOut(before, k);
    }
  }

  // ---------------------------------------------------------------- a line without faults

  const ACK := Heard(false, false, false, false, true, false)
  const NACK := Heard(false, false, false, true, false, false)

  lemma RunAppend(w: World, events: seq<Event>, e: Event)
    ensures RunWorld(w, events + [e]) == NextWorld(RunWorld(w, events), e)
  {
    assert (events + [e])[..|events + [e]| - 1] == events;
  }

  function ReadyFor(runningA: bool): Heard {
    Heard(false, true, runningA, false, false, false)
  }

  const COMPLETE := Heard(false, false, false, false, false, true)

  /** What a line of the charger case can say in such a run. */
  predicate Spoken(heard: Heard) {
    heard == SILENCE || heard == ReadyFor(true) || heard == ReadyFor(false) || heard == ACK || heard == COMPLETE
  }

  predicate AllSpoken(events: seq<Event>, runningA: bool) {
    forall i | 0 <= i < |events| :: Spoken(events[i].heard) && events[i].heard != ReadyFor(!runningA)
  }

  /** The world when `n` records have been written, stored and acknowledged, each once. */
  function SentCleanly(file: seq<string>, runningA: bool, n: nat): World {
    World(Vars(SendRecord, n, Select(file, runningA), 0, 0, UpTo(n)), UpTo(n), [], UpTo(n), runningA, false, false)
  }

  /** The run so far, and the world that it has led to. */
  ghost predicate Reaches(file: seq<string>, events: seq<Event>, w: World) {
    PlausibleRun(file, events) && PromptRun(file, events) && RunWorld(StartWorld(file), events) == w
  }

  lemma ReachesNext(file: seq<string>, events: seq<Event>, w: World, e: Event)
    requires Reaches(file, events, w) && Plausible(w, e) && Prompt(w, e)
    ensures Reaches(file, events + [e], NextWorld(w, e))
  {
    hide NextWorld, Plausible, Prompt;
    var more := events + [e];
    RunAppend(StartWorld(file), events, e);
    assert more[..|events|] == events;
    assert forall k | 0 <= k < |events| :: more[..k] == events[..k] && more[k] == events[k];
  }

  lemma CleanStart(file: seq<string>, runningA: bool)
    requires |Select(file, runningA)| > 0
    ensures var asked := NextWorld(StartWorld(file), Event(SILENCE, false, Lost, false));
            NextWorld(asked, Event(ReadyFor(runningA), false, Lost, false)) == SentCleanly(file, runningA, 0)
  {
    hide Select, Contains;
    assert UpTo(0) == [];
  }

  /** The world after writing record `n`, with its ACK on the way. */
  function Written(file: seq<string>, runningA: bool, n: nat): World {
    World(Vars(WaitForAck, n, Select(file, runningA), 0, 0, UpTo(n + 1)), UpTo(n + 1), [Ack], UpTo(n), runningA, false, false)
  }

  lemma CleanWrite(file: seq<string>, runningA: bool, n: nat)
    requires n < |Select(file, runningA)|
    ensures NextWorld(SentCleanly(file, runningA, n), Event(SILENCE, false, Stored, true)) == Written(file, runningA, n)
  {
    hide Select, Contains;
    UpToPrefix(n, n + 1);
  }

  lemma CleanAck(file: seq<string>, runningA: bool, n: nat)
    requires n < |Select(file, runningA)|
    ensures var w := NextWorld(Written(file, runningA, n), Event(ACK, false, Lost, false));
            if Contains(Select(file, runningA)[n], "S7")
            then w == Written(file, runningA, n).(vars := Written(file, runningA, n).vars.(state := WaitForComplete),
                                                  replies := [], acked := UpTo(n + 1))
            else w == SentCleanly(file, runningA, n + 1)
  {
    hide Select, Contains;
    UpToPrefix(n, n + 1);
    assert [Ack][1..] == [];
  }

  /** Two rounds for each record. */
  lemma {:induction false} CleanRun(file: seq<string>, runningA: bool, n: nat) returns (events: seq<Event>)
    requires GoodFile(file) && n < |Select(file, runningA)|
    ensures Reaches(file, events, SentCleanly(file, runningA, n)) && AllSpoken(events, runningA)
  {
    hide NextWorld, Select, Contains, Reaches, AllSpoken;
    if n == 0 {
      var asks, ready := Event(SILENCE, false, Lost, false), Event(ReadyFor(runningA), false, Lost, false);
      CleanStart(file, runningA);
      NothingYet(file);
      ReachesNext(file, [], StartWorld(file), asks);
      ReachesNext(file, [] + [asks], NextWorld(StartWorld(file), asks), ready);
      SpokenStart(runningA, asks, ready);
      events := [] + [asks] + [ready];
    } else {
      var writes, acks := Event(SILENCE, false, Stored, true), Event(ACK, false, Lost, false);
      var before := CleanRun(file, runningA, n - 1);
      SelectionEndsWithS7(file, runningA);
      CleanWrite(file, runningA, n - 1);
      CleanAck(file, runningA, n - 1);
      ReachesNext(file, before, SentCleanly(file, runningA, n - 1), writes);
      ReachesNext(file, before + [writes], Written(file, runningA, n - 1), acks);
      OneMoreSpoken(before, runningA, writes);
      OneMoreSpoken(before + [writes], runningA, acks);
      events := before + [writes] + [acks];
    }
  }

  lemma SpokenStart(runningA: bool, asks: Event, ready: Event)
    requires asks.heard == SILENCE && ready.heard == ReadyFor(runningA)
    ensures AllSpoken([] + [asks] + [ready], runningA)
  {
  }

  lemma OneMoreSpoken(events: seq<Event>, runningA: bool, e: Event)
    requires AllSpoken(events, runningA) && Spoken(e.heard) && e.heard != ReadyFor(!runningA)
    ensures AllSpoken(events + [e], runningA)
  {
  }

  lemma NothingYet(file: seq<string>)
    ensures Reaches(file, [], StartWorld(file))
  {
  }

  /** The world after the ACK of the S7 record. */
  function AllAcked(file: seq<string>, runningA: bool, n: nat): World {
    var lines := Select(file, runningA);
    World(Vars(WaitForComplete, n, lines, 0, 0, UpTo(n + 1)), UpTo(n + 1), [], UpTo(n + 1), runningA, false, false)
  }

  /** Two more rounds for the S7 record. */
  lemma CleanEnd(file: seq<string>, runningA: bool) returns (events: seq<Event>)
    requires GoodFile(file) && Select(file, runningA) != []
    ensures Reaches(file, events, AllAcked(file, runningA, |Select(file, runningA)| - 1)) && AllSpoken(events, runningA)
  {
    hide NextWorld, Select, Contains, Reaches, AllSpoken;
    SelectionEndsWithS7(file, runningA);
    var n := |Select(file, runningA)| - 1;
    var writes, acks := Event(SILENCE, false, Stored, true), Event(ACK, false, Lost, false);
    events := CleanRun(file, runningA, n);
    CleanWrite(file, runningA, n);
    CleanAck(file, runningA, n);
    ReachesNext(file, events, SentCleanly(file, runningA, n), writes);
    ReachesNext(file, events + [writes], Written(file, runningA, n), acks);
    OneMoreSpoken(events, runningA, writes);
    OneMoreSpoken(events + [writes], runningA, acks);
    events := events + [writes] + [acks];
  }

  lemma CleanComplete(file: seq<string>, runningA: bool, n: nat)
    ensures var w := NextWorld(AllAcked(file, runningA, n), Event(COMPLETE, false, Lost, false));
            && w.completed && w.vars.lines == Select(file, runningA) && w.runningA == runningA
            && w.vars.sent == w.stored == w.acked == UpTo(n + 1)
  {
    hide Select, Contains;
  }

  /** Every file can be delivered, whichever image is running: over a line without faults the run completes, and
      every record has been written, stored and acknowledged exactly once, in order. */
  lemma CleanRunCompletes(file: seq<string>, runningA: bool) returns (events: seq<Event>)
    requires GoodFile(file)
    ensures PlausibleRun(file, events) && PromptRun(file, events) && AllSpoken(events, runningA)
    ensures var w := RunWorld(StartWorld(file), events);
            && w.completed && w.vars.lines == Select(file, runningA) && w.runningA == runningA
            && w.vars.sent == w.stored == w.acked == UpTo(|w.vars.lines|)
  {
    SelectionEndsWithS7(file, runningA);
    hide NextWorld, Select, Contains, RunWorld, PlausibleRun, PromptRun, UpTo, AllSpoken;
    var n := |Select(file, runningA)| - 1;
    var ends := Event(COMPLETE, false, Lost, false);
    var before := CleanEnd(file, runningA);
    CleanComplete(file, runningA, n);
    ReachesNext(file, before, AllAcked(file, runningA, n), ends);
    OneMoreSpoken(before, runningA, ends);
    events := before + [ends];
  }

  // ---------------------------------------------------------------- why replies must be prompt

  ghost predicate PlausibleFrom(w: World, events: seq<Event>) {
    forall i | 0 <= i < |events| :: Plausible(RunWorld(w, events[..i]), events[i])
  }

  ghost predicate PromptFrom(w: World, events: seq<Event>) {
    forall i | 0 <= i < |events| :: Prompt(RunWorld(w, events[..i]), events[i])
  }

  /** Nothing was heard when the timeout passed. */
  const TIMEOUT := Event(SILENCE, true, Lost, false)

  predicate AckedAreStored(w: World) {
    forall k | k in w.acked :: k in w.stored
  }

  /** All records before the current one have been stored. */
  lemma EarlierAreStored(w: World, file: seq<string>)
    requires Safe(w, file)
    ensures forall k: nat | k < w.vars.lineNo :: k in w.stored
  {
    forall k: nat | k < w.vars.lineNo ensures k in w.stored {
      NoneLeftOut(w.stored, k);
    }
  }

  /** In a safe world every acknowledged record has been stored, also after an abort. */
  lemma SafeAckedAreStored(w: World, file: seq<string>)
    requires Safe(w, file)
    ensures AckedAreStored(w)
  {
    hide Contains, Select;
    EarlierAreStored(w, file);
  }

  // -------------------------------- no harm: nothing on its way, or the S7 record

  /** The S7 record is the current one, the others are stored, and an ACK on its way means that it is, too. */
  ghost predicate AtLast(w: World) {
    var v := w.vars;
    && !w.crashed && EndsWithS7(v.lines) && v.lineNo == |v.lines| - 1 && (forall k: nat | k < v.lineNo :: k in w.stored)
    && (Ack in w.replies ==> v.lineNo in w.stored)
    && match v.state
       case SendRecord => w.acked == UpTo(v.lineNo)
       case WaitForAck => w.acked == UpTo(v.lineNo)
       case WaitForComplete => w.acked == UpTo(v.lineNo + 1) && v.lineNo in w.stored
       case Off => w.acked == UpTo(v.lineNo) || (w.acked == UpTo(v.lineNo + 1) && v.lineNo in w.stored)
       case _ => false
  }

  lemma AtLastStays(w: World, e: Event)
    requires AtLast(w) && Plausible(w, e)
    ensures AtLast(NextWorld(w, e))
  {
    if w.vars.state == SendRecord {
      AtLastSends(w, e);
    } else if w.vars.state == WaitForAck {
      AtLastHears(w, e);
    } else {
      AtLastEnds(w, e);
    }
  }

  lemma FewerReplies(replies: seq<Reply>)
    ensures replies != [] && Ack in replies[1..] ==> Ack in replies
  {
  }

  lemma AtLastSends(w: World, e: Event)
    requires AtLast(w) && Plausible(w, e) && w.vars.state == SendRecord
    ensures AtLast(NextWorld(w, e))
  {
    hide Contains;
    FewerReplies(w.replies);
  }

  lemma AtLastHears(w: World, e: Event)
    requires AtLast(w) && Plausible(w, e) && w.vars.state == WaitForAck
    ensures AtLast(NextWorld(w, e))
  {
    hide Contains;
    assert Contains(w.vars.lines[w.vars.lineNo], "S7");
    UpToPrefix(w.vars.lineNo, w.vars.lineNo + 1);
    FewerReplies(w.replies);
  }

  lemma AtLastEnds(w: World, e: Event)
    requires AtLast(w) && Plausible(w, e) && (w.vars.state == WaitForComplete || w.vars.state == Off)
    ensures AtLast(NextWorld(w, e))
  {
    hide Contains;
    FewerReplies(w.replies);
  }

  lemma AtLastAckedAreStored(w: World)
    requires AtLast(w)
    ensures AckedAreStored(w)
  {
    hide Contains;
  }

  lemma {:induction false} AtLastForGood(w: World, events: seq<Event>)
    requires AtLast(w) && PlausibleFrom(w, events)
    ensures AtLast(RunWorld(w, events))
    decreases |events|
  {
    hide AtLast, NextWorld, Plausible;
    if events != [] {
      var before := events[..|events| - 1];
      assert forall i | 0 <= i < |before| :: before[..i] == events[..i] && before[i] == events[i];
      AtLastForGood(w, before);
      AtLastStays(RunWorld(w, before), events[|events| - 1]);
    }
  }

  lemma {:induction false} SafeForGood(w: World, file: seq<string>, events: seq<Event>)
    requires GoodFile(file) && Safe(w, file) && PlausibleFrom(w, events) && PromptFrom(w, events)
    ensures Safe(RunWorld(w, events), file)
    decreases |events|
  {
    hide Safe, NextWorld, Plausible, Prompt, GoodFile;
    if events != [] {
      var before := events[..|events| - 1];
      assert forall i | 0 <= i < |before| :: before[..i] == events[..i] && before[i] == events[i];
      SafeForGood(w, file, before);
      RoundIsSafe(RunWorld(w, before), events[|events| - 1], file);
    }
  }

  /** After the timeout, with something on its way or not. */
  lemma AfterTimeout(w: World)
    requires w.vars.state == WaitForAck && !w.crashed
    ensures NextWorld(w, TIMEOUT) == w.(vars := w.vars.(state := SendRecord, retries := w.vars.retries + 1))
  {
  }

  lemma TimeoutAtLast(w: World, file: seq<string>)
    requires Safe(w, file) && w.vars.state == WaitForAck && Contains(w.vars.lines[w.vars.lineNo], "S7")
    ensures AtLast(NextWorld(w, TIMEOUT))
  {
    hide Contains, Select;
    AfterTimeout(w);
    EarlierAreStored(w, file);
  }

  // -------------------------------- harm: a reply on its way, and a record to lose

  /** The next round of a continuation that ends in a given world. */
  ghost predicate Continues(w: World, events: seq<Event>, to: World) {
    PlausibleFrom(w, events) && PromptFrom(w, events) && RunWorld(w, events) == to
  }

  lemma ContinuesNext(w: World, events: seq<Event>, to: World, e: Event)
    requires Continues(w, events, to) && Plausible(to, e) && Prompt(to, e)
    ensures Continues(w, events + [e], NextWorld(to, e))
  {
    hide NextWorld, Plausible, Prompt;
    var more := events + [e];
    RunAppend(w, events, e);
    assert more[..|events|] == events;
    assert forall i | 0 <= i < |events| :: more[..i] == events[..i] && more[i] == events[i];
  }

  const STORES := Event(SILENCE, false, Stored, true)
  const LOSES := Event(SILENCE, false, Lost, false)
  const HEARS_ACK := Event(ACK, false, Lost, false)
  const HEARS_NACK := Event(NACK, false, Lost, false)

  /** About to send record `n` again although an ACK for it is on its way; the next record has never been sent. */
  predicate Behind(w: World, n: nat) {
    var v := w.vars;
    && !w.crashed && v.state == SendRecord && v.lineNo == n && n + 1 < |v.lines| && !Contains(v.lines[n], "S7")
    && w.replies == [Ack] && forall k | k in w.stored :: k <= n
  }

  /** Record `n` is sent and stored again, so there are two ACKs. */
  lemma BehindStores(w: World, n: nat)
    requires Behind(w, n)
    ensures NextWorld(w, STORES)
            == w.(vars := w.vars.(state := WaitForAck, sent := w.vars.sent + [n]), stored := w.stored + [n], replies := [Ack, Ack])
  {
    hide Contains;
  }

  /** An ACK moves the sender on. */
  lemma AckMovesOn(w: World, n: nat)
    requires !w.crashed && w.vars.state == WaitForAck && w.vars.lineNo == n && n < |w.vars.lines| && w.replies != []
    requires w.replies[0] == Ack
    ensures var r := NextWorld(w, HEARS_ACK);
            && r.acked == w.acked + [n] && r.stored == w.stored && r.replies == w.replies[1..] && !r.crashed
            && (!Contains(w.vars.lines[n], "S7") ==>
                  r.vars == w.vars.(state := SendRecord, lineNo := n + 1))
  {
    hide Contains;
  }

  lemma LoseOne(w: World, n: nat)
    requires !w.crashed && w.vars.state == SendRecord && w.vars.lineNo == n && n < |w.vars.lines|
    ensures NextWorld(w, LOSES) == w.(vars := w.vars.(state := WaitForAck, sent := w.vars.sent + [n]))
  {
    hide Contains;
  }

  /** From there the next record is lost but acknowledged. */
  lemma BehindBreaks(w: World, n: nat) returns (events: seq<Event>)
    requires Behind(w, n)
    ensures PlausibleFrom(w, events) && PromptFrom(w, events) && LostButAcked(RunWorld(w, events), n + 1)
  {
    BehindStores(w, n);
    var w1 := NextWorld(w, STORES);
    AckMovesOn(w1, n);
    var w2 := NextWorld(w1, HEARS_ACK);
    assert [Ack, Ack][1..] == [Ack];
    LoseOne(w2, n + 1);
    var w3 := NextWorld(w2, LOSES);
    AckMovesOn(w3, n + 1);
    var w4 := NextWorld(w3, HEARS_ACK);
    assert LostButAcked(w4, n + 1) by {
      assert (w3.acked + [n + 1])[|w3.acked|] == n + 1;
    }
    hide NextWorld, Contains, Behind;
    events := [];
    assert Continues(w, events, w);
    ContinuesNext(w, events, w, STORES);
    events := events + [STORES];
    ContinuesNext(w, events, w1, HEARS_ACK);
    events := events + [HEARS_ACK];
    ContinuesNext(w, events, w2, LOSES);
    events := events + [LOSES];
    ContinuesNext(w, events, w3, HEARS_ACK);
    events := events + [HEARS_ACK];
  }

  predicate LostButAcked(w: World, k: nat) {
    k in w.acked && k !in w.stored
  }

  lemma {:induction false} RunConcat(w: World, x: seq<Event>, y: seq<Event>)
    ensures RunWorld(w, x + y) == RunWorld(RunWorld(w, x), y)
    decreases |y|
  {
    hide NextWorld;
    if y == [] {
      assert x + y == x;
    } else {
      var before, e := y[..|y| - 1], y[|y| - 1];
      assert x + y == x + before + [e];
      RunConcat(w, x, before);
      RunAppend(w, x + before, e);
    }
  }

  /** The prefixes of two parts. */
  lemma PartsOfRun(w: World, x: seq<Event>, y: seq<Event>, i: nat)
    requires i < |x + y|
    ensures i < |x| ==> (x + y)[..i] == x[..i] && (x + y)[i] == x[i]
    ensures i >= |x| ==> RunWorld(w, (x + y)[..i]) == RunWorld(RunWorld(w, x), y[..i - |x|]) && (x + y)[i] == y[i - |x|]
  {
    hide RunWorld;
    if i >= |x| {
      assert (x + y)[..i] == x + y[..i - |x|];
      RunConcat(w, x, y[..i - |x|]);
    }
  }

  lemma PlausibleConcat(w: World, x: seq<Event>, y: seq<Event>)
    requires PlausibleFrom(w, x) && PlausibleFrom(RunWorld(w, x), y)
    ensures PlausibleFrom(w, x + y)
  {
    hide RunWorld, Plausible;
    forall i | 0 <= i < |x + y| ensures Plausible(RunWorld(w, (x + y)[..i]), (x + y)[i]) {
      PartsOfRun(w, x, y, i);
    }
  }

  lemma PromptConcat(w: World, x: seq<Event>, y: seq<Event>)
    requires PromptFrom(w, x) && PromptFrom(RunWorld(w, x), y)
    ensures PromptFrom(w, x + y)
  {
    hide RunWorld, Prompt;
    forall i | 0 <= i < |x + y| ensures Prompt(RunWorld(w, (x + y)[..i]), (x + y)[i]) {
      PartsOfRun(w, x, y, i);
    }
  }

  /** With a NACK on its way the sender falls behind in two rounds. */
  lemma NackFallsBehind(w: World, n: nat) returns (behind: World)
    requires !w.crashed && w.vars.state == SendRecord && w.vars.lineNo == n && n + 1 < |w.vars.lines| && w.replies == [Nack]
    requires !Contains(w.vars.lines[n], "S7") && forall k | k in w.stored :: k <= n
    ensures Behind(behind, n) && Continues(w, [STORES, HEARS_NACK], behind)
  {
    hide Contains;
    var w1 := NextWorld(w, STORES);
    assert w1.vars.state == WaitForAck && w1.replies == [Nack, Ack] && w1.stored == w.stored + [n];
    behind := NextWorld(w1, HEARS_NACK);
    assert [Nack, Ack][1..] == [Ack];
    assert Behind(behind, n);
    hide NextWorld, Behind;
    assert Continues(w, [], w);
    ContinuesNext(w, [], w, STORES);
    ContinuesNext(w, [] + [STORES], w1, HEARS_NACK);
    assert [] + [STORES] + [HEARS_NACK] == [STORES, HEARS_NACK];
  }

  lemma StoredUpTo(stored: seq<nat>, current: nat)
    requires InOrder(stored, current)
    ensures forall k | k in stored :: k <= current
  {
    forall k | k in stored ensures k <= current {
      var i :| 0 <= i < |stored| && stored[i] == k;
      AtMostLast(stored, i);
    }
  }

  lemma {:induction false} AtMostLast(stored: seq<nat>, i: nat)
    requires i < |stored| && forall j | 0 <= j < |stored| - 1 :: stored[j] <= stored[j + 1] <= stored[j] + 1
    ensures stored[i] <= stored[|stored| - 1]
    decreases |stored| - i
  {
    if i + 1 < |stored| {
      AtMostLast(stored, i + 1);
    }
  }

  /** A timeout while a reply is on its way, before the last record. */
  lemma TimeoutBreaks(w: World, file: seq<string>) returns (events: seq<Event>)
    requires Safe(w, file) && w.vars.state == WaitForAck && w.replies != [] && !Contains(w.vars.lines[w.vars.lineNo], "S7")
    ensures var after := NextWorld(w, TIMEOUT);
            PlausibleFrom(after, events) && PromptFrom(after, events)
            && LostButAcked(RunWorld(after, events), w.vars.lineNo + 1)
  {
    hide Contains, Select;
    var n := w.vars.lineNo;
    AfterTimeout(w);
    StoredUpTo(w.stored, n);
    var after := NextWorld(w, TIMEOUT);
    assert w.replies == [w.replies[0]];
    assert n + 1 < |w.vars.lines|;
    hide NextWorld, Safe;
    if w.replies[0] == Ack {
      events := BehindBreaks(after, n);
    } else {
      var behind := NackFallsBehind(after, n);
      var more := BehindBreaks(behind, n);
      PlausibleConcat(after, [STORES, HEARS_NACK], more);
      PromptConcat(after, [STORES, HEARS_NACK], more);
      RunConcat(after, [STORES, HEARS_NACK], more);
      events := [STORES, HEARS_NACK] + more;
    }
  }

  /** A timeout without an answer is harmless, whatever follows in a plausible and prompt way, exactly when no reply is
      on its way or the current record is the S7 record. A NACK on its way does the same harm as an ACK. */
  lemma TimeoutIsHarmlessExactly(w: World, file: seq<string>)
    requires GoodFile(file) && Safe(w, file) && w.vars.state == WaitForAck
    ensures var after := NextWorld(w, TIMEOUT);
            (forall events | PlausibleFrom(after, events) && PromptFrom(after, events) :: AckedAreStored(RunWorld(after, events)))
            <==> w.replies == [] || Contains(w.vars.lines[w.vars.lineNo], "S7")
  {
    var after := NextWorld(w, TIMEOUT);
    if w.replies == [] {
      RoundIsSafe(w, TIMEOUT, file);
      hide Safe, NextWorld, RunWorld, GoodFile, Contains;
      forall events | PlausibleFrom(after, events) && PromptFrom(after, events) ensures AckedAreStored(RunWorld(after, events)) {
        SafeForGood(after, file, events);
        SafeAckedAreStored(RunWorld(after, events), file);
      }
    } else if Contains(w.vars.lines[w.vars.lineNo], "S7") {
      TimeoutAtLast(w, file);
      hide Safe, NextWorld, RunWorld, AtLast, Contains;
      forall events | PlausibleFrom(after, events) && PromptFrom(after, events) ensures AckedAreStored(RunWorld(after, events)) {
        AtLastForGood(after, events);
        AtLastAckedAreStored(RunWorld(after, events));
      }
    } else {
      var events := TimeoutBreaks(w, file);
      assert !AckedAreStored(RunWorld(after, events));
    }
  }

  /** So for every record but the last there is a plausible run in which the ACK comes after the timeout, and the record
      after it is acknowledged although it was lost. */
  lemma LateReplySkipsARecord(file: seq<string>, runningA: bool, n: nat) returns (events: seq<Event>)
    requires GoodFile(file) && n + 1 < |Select(file, runningA)|
    ensures PlausibleRun(file, events) && LostButAcked(RunWorld(StartWorld(file), events), n + 1)
  {
    SelectionEndsWithS7(file, runningA);
    hide Contains, Select;
    var before := CleanRun(file, runningA, n);
    CleanWrite(file, runningA, n);
    ReachesNext(file, before, SentCleanly(file, runningA, n), STORES);
    var waiting := Written(file, runningA, n);
    RunsAreSafe(file, before + [STORES]);
    var more := TimeoutBreaks(waiting, file);
    var until := before + [STORES];
    assert PlausibleFrom(StartWorld(file), until);
    PlausibleNext(StartWorld(file), until, TIMEOUT);
    PlausibleConcat(StartWorld(file), until + [TIMEOUT], more);
    RunConcat(StartWorld(file), until + [TIMEOUT], more);
    events := until + [TIMEOUT] + more;
  }

  lemma PlausibleNext(w: World, events: seq<Event>, e: Event)
    requires PlausibleFrom(w, events) && Plausible(RunWorld(w, events), e)
    ensures PlausibleFrom(w, events + [e]) && RunWorld(w, events + [e]) == NextWorld(RunWorld(w, events), e)
  {
    hide NextWorld, Plausible;
    var more := events + [e];
    RunAppend(w, events, e);
    assert more[..|events|] == events;
    assert forall i | 0 <= i < |events| :: more[..i] == events[..i] && more[i] == events[i];
  }
}
