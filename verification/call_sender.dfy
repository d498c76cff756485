/** Sending a procedure call to a destination: at most two attempts, each of which prints the call in a
    buffer and sends the buffer at once. */
module CallSender {
  import opened Strings
  import opened XmltpTokens
  import opened XmltpWriter

  /** The parts of the call, sendXMLTPprefix() to sendXmltpEOT(). Printing stops with an exception at the
      part that cannot be printed, if there is one; it is the same one each time. */
  method PrintCall(buf: SocketBuffer, parts: seq<seq<Token>>, bad: Option<nat>) returns (ok: bool)
    modifies buf
    ensures ok <==> bad == None || bad.value >= |parts|
    ensures ok ==> buf.Printed() == old(buf.Printed()) + Flatten(parts)
  {
    ghost var p := buf.Printed();
    assert p == p + Flatten(parts[..0]);
    for i := 0 to |parts|
      invariant bad == None || bad.value >= i
      invariant buf.Printed() == p + Flatten(parts[..i])
    {
      if bad == Some(i) { return false; }
      buf.SendAfter(parts[i], p, Flatten(parts[..i]));
      assert parts[..i + 1][..i] == parts[..i];
    }
    assert parts[..|parts|] == parts;
    ok := true;
  }

  /** One attempt; the buffer is empty after a send, whatever its end. */
  method Attempt(buf: SocketBuffer, parts: seq<seq<Token>>, bad: Option<nat>, end: SendEnd) returns (ok: bool,
                 flushed: bool)
    modifies buf, buf.sock
    ensures flushed <==> bad == None || bad.value >= |parts|
    ensures flushed ==> buf.chunksList == []
    ensures ok <==> flushed && TakesAll(Print(old(buf.Printed()) + Flatten(parts)), end)
    ensures buf.sock.wire == old(buf.sock.wire)
                             + if flushed then TakenOf(Print(old(buf.Printed()) + Flatten(parts)), end) else ""
  {
    flushed := PrintCall(buf, parts, bad);
    if !flushed { return false, false; }
    ok := buf.Flush(end);
  }

  /** sendProcCallWithRetry(): reset is the socket that a reset of the connection gives, if it can be
      reset. The socket in use at the end is given the whole call, once and alone, or only what the last send
      took of it; a socket that was given up has got less than the whole. */
  method SendProcCallWithRetry(sock: Socket, parts: seq<seq<Token>>, bad: Option<nat>,
                               end1: SendEnd, end2: SendEnd, reset: Option<Socket>)
    returns (rc: int, used: Socket)
    requires reset.Some? ==> reset.value != sock
    modifies sock, if reset.Some? then {reset.value} else {}
    ensures used == sock || reset == Some(used)
    ensures rc == 0 ==> used.wire == old(used.wire) + CallText(parts)
    ensures rc != 0 ==> exists p :: Part(p, CallText(parts)) && used.wire == old(used.wire) + p
    ensures used != sock ==> exists p :: Part(p, CallText(parts)) && sock.wire == old(sock.wire) + p
    ensures used == sock && reset.Some? ==> reset.value.wire == old(reset.value.wire)
    ensures rc == 0 <==> (bad == None || bad.value >= |parts|)
                         && (TakesAll(CallText(parts), end1)
                             || (TakesAll(CallText(parts), end2) && (end1 == InternalError || reset.Some?)))
    ensures used != sock || rc == -8 <==>
              && (bad == None || bad.value >= |parts|) && end1.Takes? && !TakesAll(CallText(parts), end1)
              && (used != sock <==> reset.Some?)
    ensures rc in {0, -1, -8} && (rc == -8 ==> reset == None)
  {
    used := sock;
    var buf := new SocketBuffer(sock);
    assert [] + Flatten(parts) == Flatten(parts);
    LessIsPart(CallText(parts), end1);
    LessIsPart(CallText(parts), end2);
    assert Part("", CallText(parts));
    var ok, flushed := Attempt(buf, parts, bad, end1);
    if ok { return 0, used; }
    if flushed && end1.Takes? {
      if reset == None { return -8, used; }
      used := reset.value;
      buf := new SocketBuffer(used);
    }
    ok, flushed := Attempt(buf, parts, bad, end2);
    rc := if ok then 0 else -1;
  }

  function CallText(parts: seq<seq<Token>>): string { Print(Flatten(parts)) }

  /** Less than the whole text, from its beginning. */
  predicate Part(p: string, s: string) { p <= s && (p == s ==> s == "") }

  lemma LessIsPart(s: string, end: SendEnd)
    ensures !TakesAll(s, end) ==> Part(TakenOf(s, end), s)
  {}
}
