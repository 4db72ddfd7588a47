/** What the sender of rdp/charger_case_comms_stm32/dfu.py does with the lines of text that it reads, and which image
    the text makes it send. */
module DfuText {
  import opened DfuSender
  import DfuHeader
  import opened DfuFile
  import opened ImageCrc
  import opened Crc
  import opened Resize
  import opened ResizeFiles
  import opened SRecord

  // ---------------------------------------------------------------- words in a line

  predicate At(s: string, word: string, i: nat) {
    i + |word| <= |s| && s[i..i + |word|] == word
  }

  /** The word is a slice of the line. */
  ghost predicate Says(line: string, word: string) {
    exists i: nat :: At(line, word, i)
  }

  lemma {:induction false} StartsWithIsPrefix(s: string, word: string)
    ensures StartsWith(s, word) <==> At(s, word, 0)
  {
    if word != "" && s != "" {
      StartsWithIsPrefix(s[1..], word[1..]);
      if |word| <= |s| {
        assert s[0..|word|] == [s[0]] + s[1..][0..|word| - 1] && word == [word[0]] + word[1..];
      }
    }
  }

  lemma OneFurther(s: string, word: string, i: nat)
    requires s != ""
    ensures At(s[1..], word, i) <==> At(s, word, i + 1)
  {
    if i + 1 + |word| <= |s| {
      assert s[1..][i..i + |word|] == s[i + 1..i + 1 + |word|];
    }
  }

  lemma {:induction false} ContainsIsSlice(s: string, word: string)
    ensures Contains(s, word) <==> Says(s, word)
  {
    StartsWithIsPrefix(s, word);
    if s != "" {
      ContainsIsSlice(s[1..], word);
      if Says(s[1..], word) {
        var i: nat :| At(s[1..], word, i);
        OneFurther(s, word, i);
      }
      if Says(s, word) && !At(s, word, 0) {
        var i: nat :| At(s, word, i);
        OneFurther(s, word, i - 1);
      }
    }
  }

  /** A word that is found in a line of the charger case. */
  ghost predicate Tells(line: string, word: string) {
    Says(line, "DFU: ") && Says(line, word)
  }

  ghost predicate Aborts(line: string) {
    Tells(line, "Error") || Tells(line, "------")
  }

  lemma HearIs(line: string)
    ensures var h := Hear(line);
            && (h.aborts <==> Aborts(line)) && (h.ready <==> Tells(line, "Ready")) && (h.runningA <==> Tells(line, "(A)"))
            && (h.nack <==> Tells(line, "NACK")) && (h.ack <==> Tells(line, "ACK")) && (h.complete <==> Tells(line, "Complete"))
  {
    ContainsIsSlice(line, "DFU: ");
    ContainsIsSlice(line, "Error");
    ContainsIsSlice(line, "------");
    ContainsIsSlice(line, "Ready");
    ContainsIsSlice(line, "(A)");
    ContainsIsSlice(line, "NACK");
    ContainsIsSlice(line, "ACK");
    ContainsIsSlice(line, "Complete");
    hide Contains, Says;
  }

  // ---------------------------------------------------------------- one round, by the text

  /** Any line with an error or a row of dashes ends it. */
  lemma AbortRound(v: Vars, line: string, late: bool)
    requires Aborts(line)
    ensures OneRound(v, Hear(line), late) == Next(v.(state := Off))
  {
    HearIs(line);
  }

  /** The Ready line decides which image is left: with (A) in it the records of B, otherwise those of A. */
  lemma ReadyRound(header: string, a: seq<string>, b: seq<string>, tail: string, v: Vars, line: string, late: bool)
    requires v.state == WaitForReady && v.lines == File(header, a, b, tail) && (|b| == |a| || |b| == |a| + 1)
    requires !Aborts(line)
    ensures OneRound(v, Hear(line), late)
            == Next(if !Tells(line, "Ready") then v
                    else v.(state := SendRecord, lines := [header] + (if Tells(line, "(A)") then b else a) + [tail]))
  {
    HearIs(line);
    SelectsTheOtherImage(header, a, b, tail);
    hide Contains, Says, Select, Hear;
  }

  /** A NACK repeats the record, otherwise an ACK moves on to the next one, or from the S7 record to the end. */
  lemma AnswerRound(v: Vars, line: string, late: bool)
    requires v.state == WaitForAck && v.lineNo < |v.lines| && !Aborts(line)
    ensures OneRound(v, Hear(line), late)
            == Next(if Tells(line, "NACK") then v.(state := SendRecord, nacks := v.nacks + 1)
                    else if !Tells(line, "ACK") then (if late then v.(state := SendRecord, retries := v.retries + 1) else v)
                    else if Says(v.lines[v.lineNo], "S7") then v.(state := WaitForComplete)
                    else v.(state := SendRecord, lineNo := v.lineNo + 1))
  {
    HearIs(line);
    ContainsIsSlice(v.lines[v.lineNo], "S7");
    hide Contains, Says, Hear;
  }

  /** After the S7 record only Complete ends it. */
  lemma CompleteRound(v: Vars, line: string, late: bool)
    requires v.state == WaitForComplete && !Aborts(line)
    ensures OneRound(v, Hear(line), late) == Next(if Tells(line, "Complete") then v.(state := Off) else v)
  {
    HearIs(line);
    hide Contains, Says, Hear;
  }

  // ---------------------------------------------------------------- the image named by the text

  /** The first line that says Ready, after the first round. */
  ghost predicate FirstReady(readings: seq<Reading>, n: nat, k: nat) {
    && 1 <= k < n <= |readings| && Tells(readings[k].line, "Ready")
    && forall i | 1 <= i < k :: !Tells(readings[i].line, "Ready")
  }

  /** Which image the sender takes for the running one, after n rounds. */
  ghost predicate TookIt(readings: seq<Reading>, n: nat, w: World) {
    exists k: nat :: FirstReady(readings, n, k) && (w.runningA <==> Tells(readings[k].line, "(A)"))
  }

  ghost predicate Tracks(readings: seq<Reading>, n: nat, w: World) {
    && n <= |readings|
    && (w.completed ==> TookIt(readings, n, w))
    && match w.vars.state
       case Start => n == 0
       case WaitForReady => n > 0 && forall i | 1 <= i < n :: !Tells(readings[i].line, "Ready")
       case Off => true
       case _ => TookIt(readings, n, w)
  }

  lemma TookItStays(readings: seq<Reading>, n: nat, w: World, after: World)
    requires n < |readings| && TookIt(readings, n, w) && after.runningA == w.runningA
    ensures TookIt(readings, n + 1, after)
  {
    hide Tells;
    var k: nat :| FirstReady(readings, n, k) && (w.runningA <==> Tells(readings[k].line, "(A)"));
    assert FirstReady(readings, n + 1, k);
  }

  lemma TracksNext(readings: seq<Reading>, n: nat, w: World, outcome: Outcome)
    requires n < |readings| && Tracks(readings, n, w) && !w.crashed
    ensures var after := NextWorld(w, Round(readings[n], outcome)); !after.crashed ==> Tracks(readings, n + 1, after)
  {
    var line := readings[n].line;
    HearIs(line);
    hide Tells, Hear, Contains, Select;
    var after := NextWorld(w, Round(readings[n], outcome));
    if !after.crashed {
      if w.vars.state == WaitForReady {
        if after.vars.state == SendRecord {
          assert FirstReady(readings, n + 1, n);
          assert TookIt(readings, n + 1, after);
        }
      } else {
        assert after.runningA == w.runningA;
      }
      if TookIt(readings, n, w) && after.runningA == w.runningA {
        TookItStays(readings, n, w, after);
      }
    }
  }

  lemma {:induction false} RunTracks(file: seq<string>, readings: seq<Reading>, outcomes: seq<Outcome>, n: nat)
    requires |outcomes| == |readings| && n <= |readings|
    ensures var w := RunWorld(StartWorld(file), Rounds(readings, outcomes)[..n]); !w.crashed ==> Tracks(readings, n, w)
  {
    hide NextWorld, Tracks, RunWorld;
    var rounds := Rounds(readings, outcomes);
    if n == 0 {
      NothingTracked(file, readings);
      assert rounds[..0] == [];
    } else {
      assert rounds[..n] == rounds[..n - 1] + [rounds[n - 1]];
      RunAppend(StartWorld(file), rounds[..n - 1], rounds[n - 1]);
      RunTracks(file, readings, outcomes, n - 1);
      var w := RunWorld(StartWorld(file), rounds[..n - 1]);
      StaysCrashed(w, rounds[n - 1]);
      if !w.crashed {
        TracksNext(readings, n - 1, w, outcomes[n - 1]);
      }
    }
  }

  lemma NothingTracked(file: seq<string>, readings: seq<Reading>)
    ensures RunWorld(StartWorld(file), []) == StartWorld(file) && Tracks(readings, 0, StartWorld(file))
  {
  }

  lemma StaysCrashed(w: World, e: Event)
    ensures w.crashed ==> NextWorld(w, e).crashed
  {
  }

  /** A completed run over lines of text has stored the header, one image and the S7 record, each record at least once:
      image B when the first Ready line has (A) in it, otherwise image A. */
  lemma {:induction false} CompletedReadingsDeliver(header: string, a: seq<string>, b: seq<string>, tail: string,
                                                    readings: seq<Reading>, outcomes: seq<Outcome>) returns (k: nat)
    requires |outcomes| == |readings| && (|b| == |a| || |b| == |a| + 1)
    requires var file, rounds := File(header, a, b, tail), Rounds(readings, outcomes);
             && GoodFile(file) && PlausibleRun(file, rounds) && PromptRun(file, rounds)
             && RunWorld(StartWorld(file), rounds).completed
    ensures FirstReady(readings, |readings|, k)
    ensures var w := RunWorld(StartWorld(File(header, a, b, tail)), Rounds(readings, outcomes));
            && (w.runningA <==> Tells(readings[k].line, "(A)"))
            && w.vars.lines == [header] + (if Tells(readings[k].line, "(A)") then b else a) + [tail]
            && forall i | 0 <= i < |w.vars.lines| :: i in w.stored
  {
    var file, rounds := File(header, a, b, tail), Rounds(readings, outcomes);
    k := WhichReady(file, readings, outcomes);
    hide Tells, RunWorld;
    CompletedRunsDeliver(header, a, b, tail, rounds);
  }

  lemma WhichReady(file: seq<string>, readings: seq<Reading>, outcomes: seq<Outcome>) returns (k: nat)
    requires |outcomes| == |readings| && GoodFile(file)
    requires var rounds := Rounds(readings, outcomes);
             PlausibleRun(file, rounds) && PromptRun(file, rounds) && RunWorld(StartWorld(file), rounds).completed
    ensures FirstReady(readings, |readings|, k)
    ensures RunWorld(StartWorld(file), Rounds(readings, outcomes)).runningA <==> Tells(readings[k].line, "(A)")
  {
    var rounds := Rounds(readings, outcomes);
    RunsAreSafe(file, rounds);
    RunTracks(file, readings, outcomes, |readings|);
    assert rounds[..|readings|] == rounds;
    var w := RunWorld(StartWorld(file), rounds);
    hide Tells, RunWorld, GoodFile, PlausibleRun, PromptRun, Rounds;
    assert TookIt(readings, |readings|, w);
    k :| FirstReady(readings, |readings|, k) && (w.runningA <==> Tells(readings[k].line, "(A)"));
  }

  // ---------------------------------------------------------------- the lines of the charger case

  const READY_A := "DFU: Ready (A)\r\n"
  const READY_B := "DFU: Ready (B)\r\n"
  const ACK_LINE := "DFU: ACK\r\n"
  const NACK_LINE := "DFU: NACK\r\n"
  const COMPLETE_LINE := "DFU: Complete\r\n"

  lemma Missing(line: string, word: string, k: nat)
    requires k < |word| && word[k] !in line
    ensures !Contains(line, word)
  {
    ContainsIsSlice(line, word);
    forall i: nat ensures !At(line, word, i) {
      if i + |word| <= |line| {
        assert line[i..i + |word|][k] == line[i + k];
      }
    }
  }

  lemma Present(line: string, word: string, i: nat)
    requires i + |word| <= |line| && forall k | 0 <= k < |word| :: line[i + k] == word[k]
    ensures Contains(line, word)
  {
    assert At(line, word, i);
    ContainsIsSlice(line, word);
  }

  /** The sender takes each of them for what it says. */
  lemma HearsReadyA()
    ensures Hear(READY_A) == ReadyFor(true)
  {
    hide Contains;
    assert Contains(READY_A, "DFU: ") by { Present(READY_A, "DFU: ", 0); }
    assert !Contains(READY_A, "Error") by { Missing(READY_A, "Error", 0); }
    assert !Contains(READY_A, "------") by { Missing(READY_A, "------", 0); }
    assert Contains(READY_A, "Ready") by { Present(READY_A, "Ready", 5); }
    assert Contains(READY_A, "(A)") by { Present(READY_A, "(A)", 11); }
    assert !Contains(READY_A, "NACK") by { Missing(READY_A, "NACK", 0); }
    assert !Contains(READY_A, "ACK") by { Missing(READY_A, "ACK", 1); }
    assert !Contains(READY_A, "Complete") by { Missing(READY_A, "Complete", 0); }
  }

  lemma HearsReadyB()
    ensures Hear(READY_B) == ReadyFor(false)
  {
    hide Contains;
    assert Contains(READY_B, "DFU: ") by { Present(READY_B, "DFU: ", 0); }
    assert !Contains(READY_B, "Error") by { Missing(READY_B, "Error", 0); }
    assert !Contains(READY_B, "------") by { Missing(READY_B, "------", 0); }
    assert Contains(READY_B, "Ready") by { Present(READY_B, "Ready", 5); }
    assert !Contains(READY_B, "(A)") by { Missing(READY_B, "(A)", 1); }
    assert !Contains(READY_B, "NACK") by { Missing(READY_B, "NACK", 0); }
    assert !Contains(READY_B, "ACK") by { Missing(READY_B, "ACK", 0); }
    assert !Contains(READY_B, "Complete") by { Missing(READY_B, "Complete", 0); }
  }

  lemma HearsAck()
    ensures Hear(ACK_LINE) == ACK
  {
    hide Contains;
    assert Contains(ACK_LINE, "DFU: ") by { Present(ACK_LINE, "DFU: ", 0); }
    assert !Contains(ACK_LINE, "Error") by { Missing(ACK_LINE, "Error", 0); }
    assert !Contains(ACK_LINE, "------") by { Missing(ACK_LINE, "------", 0); }
    assert !Contains(ACK_LINE, "Ready") by { Missing(ACK_LINE, "Ready", 0); }
    assert !Contains(ACK_LINE, "(A)") by { Missing(ACK_LINE, "(A)", 0); }
    assert !Contains(ACK_LINE, "NACK") by { Missing(ACK_LINE, "NACK", 0); }
    assert Contains(ACK_LINE, "ACK") by { Present(ACK_LINE, "ACK", 5); }
    assert !Contains(ACK_LINE, "Complete") by { Missing(ACK_LINE, "Complete", 1); }
  }

  lemma HearsNack()
    ensures Hear(NACK_LINE) == NACK.(ack := true)
  {
    hide Contains;
    assert Contains(NACK_LINE, "DFU: ") by { Present(NACK_LINE, "DFU: ", 0); }
    assert !Contains(NACK_LINE, "Error") by { Missing(NACK_LINE, "Error", 0); }
    assert !Contains(NACK_LINE, "------") by { Missing(NACK_LINE, "------", 0); }
    assert !Contains(NACK_LINE, "Ready") by { Missing(NACK_LINE, "Ready", 0); }
    assert !Contains(NACK_LINE, "(A)") by { Missing(NACK_LINE, "(A)", 0); }
    assert Contains(NACK_LINE, "NACK") by { Present(NACK_LINE, "NACK", 5); }
    assert Contains(NACK_LINE, "ACK") by { Present(NACK_LINE, "ACK", 6); }
    assert !Contains(NACK_LINE, "Complete") by { Missing(NACK_LINE, "Complete", 1); }
  }

  lemma HearsComplete()
    ensures Hear(COMPLETE_LINE) == COMPLETE
  {
    hide Contains;
    assert Contains(COMPLETE_LINE, "DFU: ") by { Present(COMPLETE_LINE, "DFU: ", 0); }
    assert !Contains(COMPLETE_LINE, "Error") by { Missing(COMPLETE_LINE, "Error", 0); }
    assert !Contains(COMPLETE_LINE, "------") by { Missing(COMPLETE_LINE, "------", 0); }
    assert !Contains(COMPLETE_LINE, "Ready") by { Missing(COMPLETE_LINE, "Ready", 0); }
    assert !Contains(COMPLETE_LINE, "(A)") by { Missing(COMPLETE_LINE, "(A)", 0); }
    assert !Contains(COMPLETE_LINE, "NACK") by { Missing(COMPLETE_LINE, "NACK", 0); }
    assert !Contains(COMPLETE_LINE, "ACK") by { Missing(COMPLETE_LINE, "ACK", 0); }
    assert Contains(COMPLETE_LINE, "Complete") by { Present(COMPLETE_LINE, "Complete", 5); }
  }

  lemma HearsNothing()
    ensures Hear("") == SILENCE
  {
  }

  /** The line that says what was heard. */
  function LineOf(heard: Heard): string {
    if heard == ReadyFor(true) then READY_A
    else if heard == ReadyFor(false) then READY_B
    else if heard == ACK then ACK_LINE
    else if heard == COMPLETE then COMPLETE_LINE
    else ""
  }

  lemma LineIsHeard(heard: Heard)
    requires Spoken(heard)
    ensures Hear(LineOf(heard)) == heard
  {
    hide Hear;
    HearsReadyA();
    HearsReadyB();
    HearsAck();
    HearsComplete();
    HearsNothing();
  }

  /** Every file can be delivered by the lines of the charger case, whichever image is running: the sender reads nothing
      but "", the Ready line of that image, ACK and Complete; it sends the header, the other image and the S7 record, and
      each of them is written, stored and acknowledged exactly once, in order. */
  lemma {:induction false} SpokenRunDelivers(header: string, a: seq<string>, b: seq<string>, tail: string, runningA: bool)
    returns (readings: seq<Reading>, outcomes: seq<Outcome>)
    requires GoodFile(File(header, a, b, tail)) && (|b| == |a| || |b| == |a| + 1)
    ensures |outcomes| == |readings|
    ensures forall i | 0 <= i < |readings| ::
              readings[i].line in ["", if runningA then READY_A else READY_B, ACK_LINE, COMPLETE_LINE]
    ensures var file, rounds := File(header, a, b, tail), Rounds(readings, outcomes);
            && PlausibleRun(file, rounds) && PromptRun(file, rounds)
            && var w := RunWorld(StartWorld(file), rounds);
               && w.completed && w.vars.lines == [header] + (if runningA then b else a) + [tail]
               && w.vars.sent == w.stored == w.acked == UpTo(|w.vars.lines|)
  {
    var file := File(header, a, b, tail);
    var events := CleanRunCompletes(file, runningA);
    SelectsTheOtherImage(header, a, b, tail);
    hide RunWorld, PlausibleRun, PromptRun, Select, Hear, File, GoodFile;
    readings := seq(|events|, i requires 0 <= i < |events| => Reading(LineOf(events[i].heard), events[i].late));
    outcomes := seq(|events|, i requires 0 <= i < |events| => Outcome(events[i].fate, events[i].answered));
    forall i | 0 <= i < |events| ensures Rounds(readings, outcomes)[i] == events[i] {
      LineIsHeard(events[i].heard);
    }
    assert Rounds(readings, outcomes) == events;
  }

  // ---------------------------------------------------------------- from the two images to the charger case

  /** End to end, over the text that is read: with (A) in the first Ready line image B is stored, otherwise image A, and
      the stored header gives its CRC, as a number with the lowest byte first, in the place for that image. */
  lemma {:induction false} BuiltAndRead(alla: seq<string>, allb: seq<string>, variant: seq<DfuHeader.Utf8>, size: int,
                                        readings: seq<Reading>, outcomes: seq<Outcome>) returns (k: nat)
    requires DfuHeader.Sendable(alla, allb, variant, size) && |outcomes| == |readings|
    requires var file, rounds := ResizeText(DfuHeader.DfuLinesOf(alla, allb, variant), size).value, Rounds(readings, outcomes);
             && PlausibleRun(file, rounds) && PromptRun(file, rounds) && RunWorld(StartWorld(file), rounds).completed
    ensures FirstReady(readings, |readings|, k)
    ensures var file := ResizeText(DfuHeader.DfuLinesOf(alla, allb, variant), size).value;
            var w := RunWorld(StartWorld(file), Rounds(readings, outcomes));
            var a := Tells(readings[k].line, "(A)");
            && w.vars.lines != [] && (forall i | 0 <= i < |w.vars.lines| :: i in w.stored)
            && Stm32Crc(LinesMessage(w.vars.lines)) == Stm32Crc(LinesMessage(if a then allb else alla))
            && DfuHeader.SaysWord(w.vars.lines[0], if a then 16 else 8, ToNat(Stm32Crc(LinesMessage(w.vars.lines))))
  {
    hide DfuHeader.Header, LinesMessage, DfuHeader.HeaderCrc, ResizeText, SentImage, ReadableFile, SoundImages, DfuLines,
         DfuHeader.S3Lines, RunWorld, EvenPayload, Stm32Crc, GoodFile, PlausibleRun, PromptRun, Rounds, Tells,
         DfuHeader.SaysWord, DfuHeader.SaysBytes, ToNat, RStrip;
    var csumA, csumB := Stm32Crc(LinesMessage(alla)), Stm32Crc(LinesMessage(allb));
    var header, a, b := DfuHeader.Header(csumA, csumB, variant), DfuHeader.S3Lines(alla), DfuHeader.S3Lines(allb);
    var file, rounds := ResizeText(DfuHeader.DfuLinesOf(alla, allb, variant), size).value, Rounds(readings, outcomes);
    DfuHeader.NonemptyImages(a, b);
    DfuHeader.BuiltFileIsSound(alla, allb, variant);
    SentFileIsGood(header, a, b, DfuHeader.S7_LINE, size);
    k := WhichReady(file, readings, outcomes);
    DeliveredImageHasHeaderCrc(header, a, b, DfuHeader.S7_LINE, size, rounds);
    DfuHeader.DeliveredHeader(header, a, b, DfuHeader.S7_LINE, size, rounds);
    DfuHeader.HeaderSays(csumA, csumB, variant);
    DfuHeader.HeaderBytes(csumA, csumB, variant);
    DfuHeader.S3LinesMessage(alla);
    DfuHeader.S3LinesMessage(allb);
  }

  lemma SentFileIsGood(header: string, a: seq<string>, b: seq<string>, tail: string, size: int)
    requires DfuLines(header, a, b, tail) && SoundImages(a, b) && ResizeText([header] + a + b + [tail], size).Ok?
    ensures GoodFile(ResizeText([header] + a + b + [tail], size).value)
  {
    hide ResizeText, SentImage, GoodFile, DfuLines;
    ResizedParts(header, a, b, tail, size);
    SentFileEndsWithS7(header, a, b, tail, size);
  }

  /** And the lines of the charger case can make it so, whichever image is running. */
  lemma {:induction false} CanBeRead(alla: seq<string>, allb: seq<string>, variant: seq<DfuHeader.Utf8>, size: int, runningA: bool)
    returns (readings: seq<Reading>, outcomes: seq<Outcome>)
    requires DfuHeader.Sendable(alla, allb, variant, size)
    ensures |outcomes| == |readings|
    ensures forall i | 0 <= i < |readings| ::
              readings[i].line in ["", if runningA then READY_A else READY_B, ACK_LINE, COMPLETE_LINE]
    ensures var file, rounds := ResizeText(DfuHeader.DfuLinesOf(alla, allb, variant), size).value, Rounds(readings, outcomes);
            PlausibleRun(file, rounds) && PromptRun(file, rounds) && RunWorld(StartWorld(file), rounds).completed
  {
    hide DfuHeader.Header, LinesMessage, ResizeText, SentImage, ReadableFile, SoundImages, DfuLines, DfuHeader.S3Lines,
         RunWorld, EvenPayload, Stm32Crc, GoodFile, PlausibleRun, PromptRun, Rounds, RStrip, File, UpTo;
    var header := DfuHeader.Header(Stm32Crc(LinesMessage(alla)), Stm32Crc(LinesMessage(allb)), variant);
    var a, b := DfuHeader.S3Lines(alla), DfuHeader.S3Lines(allb);
    DfuHeader.NonemptyImages(a, b);
    DfuHeader.BuiltFileIsSound(alla, allb, variant);
    SentFileIsGood(header, a, b, DfuHeader.S7_LINE, size);
    ResizedParts(header, a, b, DfuHeader.S7_LINE, size);
    readings, outcomes := SpokenRunDelivers(RStrip(header), SentImage(a, size), SentImage(b, size), RStrip(DfuHeader.S7_LINE), runningA);
  }
}
