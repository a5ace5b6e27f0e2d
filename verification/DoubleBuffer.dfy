/**
 Link to link forwarding in kernel/linkmsg1.c.  Two processes, the guardian of
 the source link and the double buffer process of the destination link, share
 a DBInfo and take turns: while one sends the chunk it has, the other receives
 the next.  They stay in step through DBRendezvous alone.  No transfer fails
 here; otherwise every interleaving of single statements is allowed, which is
 more than the kernel's scheduler can produce.
 */
module DoubleBuffers {
  import opened LinkIO
  import opened Lists
  import opened Words

  datatype Who = Guardian | Buffer

  function Other(w: Who): Who { if w.Guardian? then Buffer else Guardian }

  /** Where a process stands; the points marked R are rendezvous. */
  datatype Pc =
    | Start        // R  LinkMsg, to get the buffer process going
    | Second       // R  LinkMsg, to let it read the first chunk
    | Header       //    LinkMsg, sending the protocol byte and the header
    | Idle         // R  DoubleBufferProcess, between messages
    | Top          // R  head of the loop
    | Look         //    size = bi->size
    | Recv(n: nat) //    LinkRx(size), then bi->size -= size
    | Mid(n: nat)  // R  before sending
    | Send(n: nat) //    LinkTx(size), then bi->send -= size
    | Test         //    while( bi->send != 0 )
    | Last         // R  final sync
    | Done         //    LinkMsg has the link back

  datatype Proc = Proc(pc: Pc, asleep: bool, buf: seq<Byte>)

  /** DBInfo, the two processes, and the two links. */
  datatype DB = DB(size: nat, send: nat, tfr: nat, sync: Option<Who>,
                   guardian: Proc, buffer: Proc,
                   source: seq<Byte>, dest: seq<Byte>)

  function P(s: DB, w: Who): Proc { if w.Guardian? then s.guardian else s.buffer }

  function With(s: DB, w: Who, p: Proc): DB
  {
    if w.Guardian? then s.(guardian := p) else s.(buffer := p)
  }

  predicate AtRendezvous(pc: Pc)
  {
    pc.Start? || pc.Second? || pc.Idle? || pc.Top? || pc.Mid? || pc.Last?
  }

  /** Where a process goes on from a rendezvous. */
  function Beyond(w: Who, pc: Pc): Pc
  {
    match pc
    case Start => Second
    case Second => Header
    case Idle => Top
    case Top => Look
    case Mid(n) => Send(n)
    case Last => if w.Guardian? then Done else Idle
    case _ => pc
  }

  function Min(a: nat, b: nat): nat { if a < b then a else b }

  predicate Enabled(s: DB, w: Who)
  {
    var p := P(s, w);
    && !p.asleep
    && !p.pc.Done?
    && (p.pc.Recv? ==> p.pc.n <= |s.source| && p.pc.n <= s.size)
    && (p.pc.Send? ==> p.pc.n <= |p.buf| && p.pc.n <= s.send)
  }

  /** One statement of process w; hdr is what LinkMsg sends ahead of the data. */
  function Step(s: DB, w: Who, hdr: seq<Byte>): DB
    requires Enabled(s, w)
  {
    var p := P(s, w);
    if AtRendezvous(p.pc) then
      if s.sync.None? then With(s, w, p.(asleep := true)).(sync := Some(w))
      else
        var x := s.sync.value;
        var s1 := With(s, x, P(s, x).(asleep := false, pc := Beyond(x, P(s, x).pc)));
        With(s1, w, P(s1, w).(pc := Beyond(w, p.pc))).(sync := None)
    else
      match p.pc
      case Header => With(s, w, p.(pc := Top)).(dest := s.dest + hdr)
      case Look => With(s, w, p.(pc := if s.size == 0 then Last else Recv(Min(s.size, s.tfr))))
      case Recv(n) =>
        With(s, w, p.(pc := Mid(n), buf := s.source[..n])).(size := s.size - n, source := s.source[n..])
      case Send(n) => With(s, w, p.(pc := Test)).(send := s.send - n, dest := s.dest + p.buf[..n])
      case Test => With(s, w, p.(pc := if s.send == 0 then Last else Top))
      case _ => s
  }

  /** LinkMsg has filled in the DBInfo for a message of size |data|. */
  predicate Begun(s: DB, data: seq<Byte>, rest: seq<Byte>, sent: seq<Byte>)
  {
    && s.size == s.send == |data| && |data| > 0 && s.tfr > 0
    && s.guardian.pc.Start? && !s.guardian.asleep
    && s.buffer.pc.Idle?
    && s.sync == (if s.buffer.asleep then Some(Buffer) else None)
    && s.source == data + rest && s.dest == sent
  }

  /** The message is through and the buffer process is ready for the next. */
  predicate Finished(s: DB, data: seq<Byte>, rest: seq<Byte>, sent: seq<Byte>, hdr: seq<Byte>)
  {
    && s.size == s.send == 0
    && s.guardian.pc.Done? && !s.guardian.asleep
    && s.buffer.pc.Idle?
    && s.sync == (if s.buffer.asleep then Some(Buffer) else None)
    && s.source == rest && s.dest == sent + hdr + data
  }

  // ---- The invariant ----

  /** Who sleeps is at a rendezvous and is the one sync names. */
  predicate SleepOk(s: DB)
  {
    && (s.guardian.asleep <==> s.sync == Some(Guardian))
    && (s.buffer.asleep <==> s.sync == Some(Buffer))
    && (s.guardian.asleep ==> AtRendezvous(s.guardian.pc))
    && (s.buffer.asleep ==> AtRendezvous(s.buffer.pc))
  }

  /** Both counts, and the source link, agree with r bytes received. */
  predicate Received(s: DB, data: seq<Byte>, rest: seq<Byte>, r: nat)
  {
    r <= |data| && s.size == |data| - r && s.source == data[r..] + rest
  }

  predicate Sent(s: DB, data: seq<Byte>, ahead: seq<Byte>, k: nat)
  {
    k <= |data| && s.send == |data| - k && s.dest == ahead + data[..k]
  }

  /**
   Process x is getting a chunk while y is getting rid of one: y's chunk runs
   from byte k, the first not yet sent, to byte j, and x's from j on.
   */
  predicate Turn(s: DB, x: Who, data: seq<Byte>, rest: seq<Byte>, sent: seq<Byte>, hdr: seq<Byte>, k: nat, j: nat)
  {
    var a, b := P(s, x), P(s, Other(x));
    && k <= j
    // x, the receiver
    && (match a.pc
        case Look => Received(s, data, rest, j)
        case Recv(n) => Received(s, data, rest, j) && n == Min(s.size, s.tfr) && n > 0
        case Mid(n) => n > 0 && Received(s, data, rest, j + n) && a.buf == data[j..j + n]
        case Last => j == |data| && Received(s, data, rest, j)
        case _ => false)
    // y, the sender
    && (match b.pc
        case Header => x.Buffer? && j == 0 && Sent(s, data, sent, 0) && !a.pc.Last?
        case Send(n) => n > 0 && n == j - k && Sent(s, data, sent + hdr, k) && b.buf == data[k..j]
        case Test => k == j && Sent(s, data, sent + hdr, k)
        case Top => k == j < |data| && Sent(s, data, sent + hdr, k)
        case Last => k == j == |data| && Sent(s, data, sent + hdr, k)
        case _ => false)
  }

  ghost predicate Turning(s: DB, data: seq<Byte>, rest: seq<Byte>, sent: seq<Byte>, hdr: seq<Byte>)
  {
    exists x, k, j :: Turn(s, x, data, rest, sent, hdr, k, j)
  }

  predicate Opening(s: DB, data: seq<Byte>, rest: seq<Byte>, sent: seq<Byte>)
  {
    && ((s.guardian.pc.Start? && s.buffer.pc.Idle?) || (s.guardian.pc.Second? && s.buffer.pc.Top?))
    && Received(s, data, rest, 0) && Sent(s, data, sent, 0)
  }

  ghost predicate Inv(s: DB, data: seq<Byte>, rest: seq<Byte>, sent: seq<Byte>, hdr: seq<Byte>)
  {
    && SleepOk(s) && s.tfr > 0 && |data| > 0
    && (Opening(s, data, rest, sent) || Turning(s, data, rest, sent, hdr) || Finished(s, data, rest, sent, hdr))
  }

  lemma BegunInv(s: DB, data: seq<Byte>, rest: seq<Byte>, sent: seq<Byte>, hdr: seq<Byte>)
    requires Begun(s, data, rest, sent)
    ensures Inv(s, data, rest, sent, hdr)
  {
  }

  lemma StepKeepsSleep(s: DB, w: Who, hdr: seq<Byte>)
    requires SleepOk(s) && Enabled(s, w)
    ensures SleepOk(Step(s, w, hdr))
  {
  }

  lemma StepFromOpening(s: DB, w: Who, data: seq<Byte>, rest: seq<Byte>, sent: seq<Byte>, hdr: seq<Byte>)
    requires SleepOk(s) && |data| > 0 && Opening(s, data, rest, sent) && Enabled(s, w)
    ensures var s' := Step(s, w, hdr); Opening(s', data, rest, sent) || Turn(s', Buffer, data, rest, sent, hdr, 0, 0)
  {
  }

  /** Process x, the one receiving, makes a step of its own. */
  lemma ReceiverSteps(s: DB, x: Who, data: seq<Byte>, rest: seq<Byte>, sent: seq<Byte>, hdr: seq<Byte>, k: nat, j: nat)
    requires s.tfr > 0 && |data| > 0 && Turn(s, x, data, rest, sent, hdr, k, j) && Enabled(s, x)
        && !AtRendezvous(P(s, x).pc)
    ensures Turn(Step(s, x, hdr), x, data, rest, sent, hdr, k, j)
  {
    var a := P(s, x);
    if a.pc.Recv? {
      var n := a.pc.n;
      assert s.source[..n] == data[j..j + n];
      assert s.source[n..] == data[j + n..] + rest;
    }
  }

  /** ... or the other one, sending, does. */
  lemma SenderSteps(s: DB, x: Who, data: seq<Byte>, rest: seq<Byte>, sent: seq<Byte>, hdr: seq<Byte>, k: nat, j: nat)
    requires s.tfr > 0 && |data| > 0 && Turn(s, x, data, rest, sent, hdr, k, j)
    requires Enabled(s, Other(x)) && !AtRendezvous(P(s, Other(x)).pc)
    ensures var s' := Step(s, Other(x), hdr);
            Turn(s', x, data, rest, sent, hdr, k, j) || Turn(s', x, data, rest, sent, hdr, j, j)
  {
    var b := P(s, Other(x));
    if b.pc.Header? {
      assert sent + data[..0] + hdr == sent + hdr + data[..0];
    } else if b.pc.Send? {
      assert sent + hdr + data[..k] + data[k..j] == sent + hdr + data[..j];
      assert b.buf[..b.pc.n] == data[k..j];
    }
  }

  /** The first of the two at a rendezvous goes to sleep. */
  lemma FirstSleeps(s: DB, w: Who, x: Who, data: seq<Byte>, rest: seq<Byte>, sent: seq<Byte>, hdr: seq<Byte>, k: nat,
                    j: nat)
    requires Turn(s, x, data, rest, sent, hdr, k, j) && Enabled(s, w) && AtRendezvous(P(s, w).pc) && s.sync.None?
    ensures Turn(Step(s, w, hdr), x, data, rest, sent, hdr, k, j)
  {
  }

  lemma SyncNamesOther(s: DB, w: Who)
    requires SleepOk(s) && s.sync.Some? && !P(s, w).asleep
    ensures s.sync == Some(Other(w)) && P(s, Other(w)).asleep && AtRendezvous(P(s, Other(w)).pc)
  {
    match s.sync.value {
      case Guardian =>
      case Buffer =>
    }
  }

  /** The second wakes it and they swap roles, or leave together. */
  lemma Meeting(s: DB, w: Who, x: Who, data: seq<Byte>, rest: seq<Byte>, sent: seq<Byte>, hdr: seq<Byte>, k: nat,
                j: nat)
    requires SleepOk(s) && Turn(s, x, data, rest, sent, hdr, k, j) && Enabled(s, w) && AtRendezvous(P(s, w).pc)
        && s.sync.Some?
    ensures || (P(s, x).pc.Mid? && P(s, Other(x)).pc.Top?
                && Turn(Step(s, w, hdr), Other(x), data, rest, sent, hdr, k, j + P(s, x).pc.n))
            || (P(s, x).pc.Last? && P(s, Other(x)).pc.Last? && Finished(Step(s, w, hdr), data, rest, sent, hdr))
  {
    SyncNamesOther(s, w);
    if P(s, x).pc.Last? {
      assert data[|data|..] + rest == rest && data[..|data|] == data;
    }
  }

  lemma StepInv(s: DB, w: Who, data: seq<Byte>, rest: seq<Byte>, sent: seq<Byte>, hdr: seq<Byte>)
    requires Inv(s, data, rest, sent, hdr) && Enabled(s, w)
    ensures Inv(Step(s, w, hdr), data, rest, sent, hdr)
  {
    StepKeepsSleep(s, w, hdr);
    if Opening(s, data, rest, sent) {
      StepFromOpening(s, w, data, rest, sent, hdr);
    } else if Turning(s, data, rest, sent, hdr) {
      var x, k, j :| Turn(s, x, data, rest, sent, hdr, k, j);
      if !AtRendezvous(P(s, w).pc) {
        if w == x {
          ReceiverSteps(s, x, data, rest, sent, hdr, k, j);
        } else {
          SenderSteps(s, x, data, rest, sent, hdr, k, j);
        }
      } else if s.sync.None? {
        FirstSleeps(s, w, x, data, rest, sent, hdr, k, j);
      } else {
        Meeting(s, w, x, data, rest, sent, hdr, k, j);
      }
    }
  }

  // ---- The properties ----

  /** They never both receive or both send, and hold no rendezvous with the wrong partner. */
  lemma InStep(s: DB, data: seq<Byte>, rest: seq<Byte>, sent: seq<Byte>, hdr: seq<Byte>)
    requires Inv(s, data, rest, sent, hdr)
    ensures !(s.guardian.pc.Recv? && s.buffer.pc.Recv?)
    ensures !(s.guardian.pc.Send? && s.buffer.pc.Send?)
    ensures AtRendezvous(s.guardian.pc) && AtRendezvous(s.buffer.pc) ==>
              match (s.guardian.pc, s.buffer.pc)
              case (Start, Idle) => true
              case (Second, Top) => true
              case (Top, Mid(_)) => true
              case (Mid(_), Top) => true
              case (Last, Last) => true
              case _ => false
  {
  }

  /** Until the message is through somebody can move: there is no deadlock. */
  lemma SomebodyMoves(s: DB, data: seq<Byte>, rest: seq<Byte>, sent: seq<Byte>, hdr: seq<Byte>)
    requires Inv(s, data, rest, sent, hdr) && !Enabled(s, Guardian) && !Enabled(s, Buffer)
    ensures Finished(s, data, rest, sent, hdr) && s.buffer.asleep
  {
  }

  // ---- Every run ends ----

  function Rank(s: DB, p: Proc): nat
  {
    match p.pc
    case Idle => if s.guardian.pc.Done? then 0 else 10
    case Start => 12
    case Second => 11
    case Header => 10
    case Top => 8
    case Look => 7
    case Recv(_) => 6
    case Mid(_) => 5
    case Send(_) => 4
    case Test => 9
    case Last => 2
    case Done => 1
  }

  function Potential(s: DB, p: Proc): nat { 2 * Rank(s, p) + if p.asleep then 0 else 1 }

  /** A bound on the steps still to come. */
  function Measure(s: DB): nat { 12 * s.send + Potential(s, s.guardian) + Potential(s, s.buffer) }

  lemma StepDecreases(s: DB, w: Who, data: seq<Byte>, rest: seq<Byte>, sent: seq<Byte>, hdr: seq<Byte>)
    requires Inv(s, data, rest, sent, hdr) && Enabled(s, w)
    ensures Measure(Step(s, w, hdr)) < Measure(s)
  {
    InStep(s, data, rest, sent, hdr);
    if !AtRendezvous(P(s, w).pc) {
      ChunksAreNotEmpty(s, w, data, rest, sent, hdr);
      OwnStepDecreases(s, w, hdr);
    } else if s.sync.Some? {
      SyncNamesOther(s, w);
      MeetingDecreases(s, w, hdr);
    }
  }

  lemma ChunksAreNotEmpty(s: DB, w: Who, data: seq<Byte>, rest: seq<Byte>, sent: seq<Byte>, hdr: seq<Byte>)
    requires Inv(s, data, rest, sent, hdr)
    ensures P(s, w).pc.Send? ==> P(s, w).pc.n > 0
  {
  }

  lemma OwnStepDecreases(s: DB, w: Who, hdr: seq<Byte>)
    requires Enabled(s, w) && !AtRendezvous(P(s, w).pc) && (P(s, w).pc.Send? ==> P(s, w).pc.n > 0)
    ensures Measure(Step(s, w, hdr)) < Measure(s)
  {
  }

  lemma MeetingDecreases(s: DB, w: Who, hdr: seq<Byte>)
    requires SleepOk(s) && Enabled(s, w) && AtRendezvous(P(s, w).pc) && s.sync.Some?
    requires match (s.guardian.pc, s.buffer.pc)
             case (Start, Idle) => true
             case (Second, Top) => true
             case (Top, Mid(_)) => true
             case (Mid(_), Top) => true
             case (Last, Last) => true
             case _ => false
    ensures Measure(Step(s, w, hdr)) < Measure(s)
  {
  }

  /** The state after the processes of `schedule` have moved, those that could. */
  function Run(s: DB, schedule: seq<Who>, hdr: seq<Byte>): DB
    decreases |schedule|
  {
    if schedule == [] then s
    else Run(if Enabled(s, schedule[0]) then Step(s, schedule[0], hdr) else s, schedule[1..], hdr)
  }

  lemma {:induction false} RunInv(s: DB, schedule: seq<Who>, data: seq<Byte>, rest: seq<Byte>, sent: seq<Byte>,
                                  hdr: seq<Byte>)
    requires Inv(s, data, rest, sent, hdr)
    ensures Inv(Run(s, schedule, hdr), data, rest, sent, hdr)
    decreases |schedule|
  {
    if schedule != [] {
      var s' := if Enabled(s, schedule[0]) then Step(s, schedule[0], hdr) else s;
      if Enabled(s, schedule[0]) {
        StepInv(s, schedule[0], data, rest, sent, hdr);
      }
      RunInv(s', schedule[1..], data, rest, sent, hdr);
    }
  }

  /**
   However the two are interleaved, when neither can move any more the message
   is through: the destination link has been sent the header and then exactly
   the bytes the source link carried, nothing beyond them was received, both
   counts are 0 and the buffer process sleeps where the next message finds it.
   */
  lemma DoubleBufferCopies(s: DB, schedule: seq<Who>, data: seq<Byte>, rest: seq<Byte>, sent: seq<Byte>, hdr: seq<Byte>)
    requires Begun(s, data, rest, sent)
    requires var s' := Run(s, schedule, hdr); !Enabled(s', Guardian) && !Enabled(s', Buffer)
    ensures var s' := Run(s, schedule, hdr); Finished(s', data, rest, sent, hdr) && s'.buffer.asleep
  {
    BegunInv(s, data, rest, sent, hdr);
    RunInv(s, schedule, data, rest, sent, hdr);
    SomebodyMoves(Run(s, schedule, hdr), data, rest, sent, hdr);
  }

  /** Such a state is always reached: from any point some schedule gets there. */
  lemma {:induction false} AlwaysGetsThrough(s: DB, data: seq<Byte>, rest: seq<Byte>, sent: seq<Byte>, hdr: seq<Byte>)
    returns (schedule: seq<Who>)
    requires Inv(s, data, rest, sent, hdr)
    ensures |schedule| <= Measure(s)
    ensures var s' := Run(s, schedule, hdr); !Enabled(s', Guardian) && !Enabled(s', Buffer)
    decreases Measure(s)
  {
    if !Enabled(s, Guardian) && !Enabled(s, Buffer) {
      schedule := [];
    } else {
      var w := if Enabled(s, Guardian) then Guardian else Buffer;
      StepInv(s, w, data, rest, sent, hdr);
      StepDecreases(s, w, data, rest, sent, hdr);
      var more := AlwaysGetsThrough(Step(s, w, hdr), data, rest, sent, hdr);
      schedule := [w] + more;
      assert schedule[1..] == more;
    }
  }

  /** The next message starts from where the last one ended. */
  lemma ReadyForNext(s: DB, data: seq<Byte>, rest: seq<Byte>, sent: seq<Byte>, hdr: seq<Byte>,
                     s': DB, data': seq<Byte>, rest': seq<Byte>, tfr: nat)
    requires Finished(s, data, rest, sent, hdr) && |data'| > 0 && tfr > 0
    requires s' == s.(size := |data'|, send := |data'|, tfr := tfr, source := data' + rest',
                      guardian := Proc(Start, false, s.guardian.buf))
    ensures Begun(s', data', rest', sent + hdr + data)
  {
  }

  // ---- SingleBuffer, the same job by one process ----

  const SINGLE_BUFF_TFR := 64

  /** The links end as two interleaved processes would leave them. */
  method SingleBuffer(srclink: LinkFifo, destlink: LinkFifo, hdr: seq<Byte>, msgsize: nat)
    requires msgsize <= |srclink.incoming|
    modifies srclink`incoming, destlink`outgoing
    ensures srclink.incoming == old(srclink.incoming)[msgsize..]
    ensures destlink.outgoing == old(destlink.outgoing) + hdr + old(srclink.incoming)[..msgsize]
  {
    ghost var all, sent := srclink.incoming, destlink.outgoing;
    destlink.LinkTx(hdr);
    var left := msgsize;
    ghost var done := 0;
    assert sent + hdr + all[..0] == sent + hdr;
    while left != 0
      invariant 0 <= left && 0 <= done && done + left == msgsize
      invariant srclink.incoming == all[done..]
      invariant destlink.outgoing == sent + hdr + all[..done]
    {
      var tfr := left;
      if tfr > SINGLE_BUFF_TFR { tfr := SINGLE_BUFF_TFR; }
      NextChunk(all, done, tfr, sent + hdr);
      var buf := srclink.LinkRx(tfr);
      destlink.LinkTx(buf);
      left, done := left - tfr, done + tfr;
    }
  }

  lemma NextChunk(all: seq<Byte>, done: nat, n: nat, ahead: seq<Byte>)
    requires done + n <= |all|
    ensures all[done..][n..] == all[done + n..]
    ensures (ahead + all[..done]) + all[done..][..n] == ahead + all[..done + n]
  {
  }
}
