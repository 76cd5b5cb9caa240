/** The stdio transport: lines in, replies out, over one session. */
module Stdio {
  import opened Wrappers
  import opened Text
  import opened Encoding
  import opened Whitespace
  import opened Json
  import opened JsonRpc
  import opened McpSession

  /** What a read gives before the end of input. */
  datatype Input = Line(text: string) | ReadFailed

  datatype Incoming = Ignored | Malformed(error: RpcError) | Received(message: Message)

  type Parser = seq<Byte> -> Result<Json, string>

  /** What an input is to the transport: a failed read and a blank line are nothing. */
  function Meaning(input: Input, parse: Parser): Incoming {
    if input.ReadFailed? || Blank(input.text) then Ignored
    else
      match Decoded(Utf8(input.text), parse)
      case Ok(m) => Received(m)
      case Err(e) => Malformed(e)
  }

  function Meanings(inputs: seq<Input>, parse: Parser): (ins: seq<Incoming>)
    ensures |ins| == |inputs|
    ensures forall i :: 0 <= i < |inputs| ==> ins[i] == Meaning(inputs[i], parse)
  {
    seq(|inputs|, i requires 0 <= i < |inputs| => Meaning(inputs[i], parse))
  }

  // ----- Runs -----

  function StateAfter(setup: Setup, s: State, ins: seq<Incoming>): State {
    if ins == [] then s
    else
      var before := StateAfter(setup, s, Init(ins));
      if Last(ins).Received? then Next(setup, before, Last(ins).message) else before
  }

  /** What is sent back for one incoming. */
  function Sent(setup: Setup, s: State, incoming: Incoming): Option<Message> {
    match incoming
    case Ignored => None
    case Malformed(e) => Some(ErrorResponse(VERSION, None, e))
    case Received(m) => Reply(setup, s, m)
  }

  function Replies(setup: Setup, s: State, ins: seq<Incoming>): seq<Message> {
    if ins == [] then []
    else
      Replies(setup, s, Init(ins)) +
      match Sent(setup, StateAfter(setup, s, Init(ins)), Last(ins)) { case Some(r) => [r] case None => [] }
  }

  lemma OneMore(setup: Setup, s: State, ins: seq<Incoming>, i: nat)
    requires i < |ins|
    ensures var before := StateAfter(setup, s, ins[..i]);
            && StateAfter(setup, s, ins[..i + 1]) ==
               (if ins[i].Received? then Next(setup, before, ins[i].message) else before)
            && Replies(setup, s, ins[..i + 1]) ==
               Replies(setup, s, ins[..i]) +
               match Sent(setup, before, ins[i]) { case Some(r) => [r] case None => [] }
  {
    assert Init(ins[..i + 1]) == ins[..i] && Last(ins[..i + 1]) == ins[i];
  }

  /**
   * The transport loop, given that the write number `failsAt` fails, if any does. All replies are sent
   * in order and the session has seen all input; or the loop stops at the reply that cannot be
   * written, with all earlier ones sent and the session as it is after the input that caused it.
   */
  method Run(session: McpSession, inputs: seq<Input>, parse: Parser, failsAt: Option<nat>)
    returns (out: seq<Message>, ok: bool)
    modifies session
    ensures var (ins, s) := (Meanings(inputs, parse), old(session.Now()));
            && (ok ==>
                && out == Replies(session.setup, s, ins)
                && session.Now() == StateAfter(session.setup, s, ins)
                && (failsAt.Some? ==> |out| <= failsAt.value))
            && (!ok ==> failsAt == Some(|out|) && exists n :: StoppedAt(session, s, ins, n, out))
  {
    hide Meaning, StateAfter, Replies, Next, Reply;
    ghost var (ins, s) := (Meanings(inputs, parse), session.Now());
    out := [];
    RunStarts(session.setup, s, ins);
    for i := 0 to |inputs|
      invariant out == Replies(session.setup, s, ins[..i])
      invariant session.Now() == StateAfter(session.setup, s, ins[..i])
      invariant failsAt.Some? ==> |out| <= failsAt.value
    {
      OneMore(session.setup, s, ins, i);
      ReadInput(inputs[i], parse);
      if inputs[i].ReadFailed? {
        continue;
      }
      var line := inputs[i].text;
      if Blank(line) {
        continue;
      }
      var decoded := DecodeMessage(Utf8(line), parse);
      var reply: Option<Message> := None;
      match decoded {
        case Ok(message) => reply := session.Handle(message);
        case Err(error) => reply := Some(ErrorResponse(VERSION, None, error));
      }
      match reply {
        case None => continue;
        case Some(r) =>
          if failsAt == Some(|out|) {
            assert StoppedAt(session, s, ins, i + 1, out);
            return out, false;
          }
          out := out + [r];
      }
    }
    assert ins[..|inputs|] == ins;
    return out, true;
  }

  /** The loop stopped because the last reply to the first `n` inputs could not be written. */
  ghost predicate StoppedAt(session: McpSession, s: State, ins: seq<Incoming>, n: nat, out: seq<Message>)
    reads session
  {
    && n <= |ins| && session.Now() == StateAfter(session.setup, s, ins[..n])
    && Replies(session.setup, s, ins[..n]) != [] && out == Init(Replies(session.setup, s, ins[..n]))
  }

  lemma RunStarts(setup: Setup, s: State, ins: seq<Incoming>)
    ensures Replies(setup, s, ins[..0]) == [] && StateAfter(setup, s, ins[..0]) == s
  {
  }

  lemma ReadInput(input: Input, parse: Parser)
    ensures input.ReadFailed? ==> Meaning(input, parse) == Ignored
    ensures input.Line? && Blank(input.text) ==> Meaning(input, parse) == Ignored
    ensures input.Line? && !Blank(input.text) ==>
              Meaning(input, parse) == match Decoded(Utf8(input.text), parse) { case Ok(m) => Received(m) case Err(e) => Malformed(e) }
  {
  }

  // ----- Every run -----

  predicate IsRequest(incoming: Incoming) {
    incoming.Received? && incoming.message.Request?
  }

  function Requests(ins: seq<Incoming>): nat {
    if ins == [] then 0 else Requests(Init(ins)) + if IsRequest(Last(ins)) then 1 else 0
  }

  function Faults(ins: seq<Incoming>): nat {
    if ins == [] then 0 else Faults(Init(ins)) + if Last(ins).Malformed? then 1 else 0
  }

  lemma Appended(setup: Setup, s: State, m: Message)
    ensures Reply(setup, s, m).Some? <==> m.Request?
    ensures s.audit <= Next(setup, s, m).audit
    ensures |Next(setup, s, m).audit| == |s.audit| + if m.Request? then 1 else 0
  {
    hide AnswerTo, Runs;
  }

  /** A run sends one reply for each request and each malformed line, and records one event for each request. */
  lemma {:induction false} Counted(setup: Setup, s: State, ins: seq<Incoming>)
    ensures |Replies(setup, s, ins)| == Requests(ins) + Faults(ins)
    ensures |StateAfter(setup, s, ins).audit| == |s.audit| + Requests(ins)
  {
    if ins != [] {
      hide Next, Reply;
      Counted(setup, s, Init(ins));
      if Last(ins).Received? {
        Appended(setup, StateAfter(setup, s, Init(ins)), Last(ins).message);
      }
    }
  }

  /** Nothing sent or recorded is ever taken back. */
  lemma {:induction false} OnlyGrows(setup: Setup, s: State, ins: seq<Incoming>, i: nat)
    requires i <= |ins|
    ensures Replies(setup, s, ins[..i]) <= Replies(setup, s, ins)
    ensures StateAfter(setup, s, ins[..i]).audit <= StateAfter(setup, s, ins).audit
    decreases |ins|
  {
    if i == |ins| {
      assert ins[..i] == ins;
    } else {
      hide Next, Reply;
      assert Init(ins)[..i] == ins[..i];
      OnlyGrows(setup, s, Init(ins), i);
      if Last(ins).Received? {
        Appended(setup, StateAfter(setup, s, Init(ins)), Last(ins).message);
      }
    }
  }

  /**
   * In every run, the reply to the request at position `i` comes after exactly the replies to the
   * requests and malformed lines before it, under the same id; and the event after exactly the events
   * of the requests before it, under its name, a failure exactly if the reply tells the client of one.
   */
  lemma OneReplyOneEvent(setup: Setup, s: State, ins: seq<Incoming>, i: nat)
    requires i < |ins| && IsRequest(ins[i])
    ensures var (replies, audit, m) := (Replies(setup, s, ins), StateAfter(setup, s, ins).audit, ins[i].message);
            var (q, a) := (Requests(ins[..i]) + Faults(ins[..i]), |s.audit| + Requests(ins[..i]));
            && q < |replies| && a < |audit|
            && RepliesTo(m.id, replies[q])
            && audit[a].call == m.name
            && (audit[a].outcome.Failure? <==> TellsFailure(replies[q]))
            && (replies[q].ErrorResponse? ==> audit[a].outcome == Failure(replies[q].error.code))
  {
    hide StateAfter, Replies, Next, Reply, TellsFailure, RepliesTo, Requests, Faults;
    var before := StateAfter(setup, s, ins[..i]);
    Counted(setup, s, ins[..i]);
    OneMore(setup, s, ins, i);
    ExchangeSound(setup, before, ins[i].message);
    OnlyGrows(setup, s, ins, i + 1);
  }

  /** The reply to a malformed line has no id and carries the decoder's own error. */
  lemma FaultAnswered(setup: Setup, s: State, ins: seq<Incoming>, i: nat)
    requires i < |ins| && ins[i].Malformed?
    ensures var (replies, q) := (Replies(setup, s, ins), Requests(ins[..i]) + Faults(ins[..i]));
            q < |replies| && replies[q] == ErrorResponse(VERSION, None, ins[i].error)
  {
    hide StateAfter, Replies, Next, Reply, Requests, Faults;
    Counted(setup, s, ins[..i]);
    OneMore(setup, s, ins, i);
    OnlyGrows(setup, s, ins, i + 1);
  }

  // ----- Initialization -----

  predicate Initializes(incoming: Incoming) {
    IsRequest(incoming) && incoming.message.name == "initialize"
  }

  predicate CallsTool(incoming: Incoming) {
    IsRequest(incoming) && incoming.message.name == "tools/call"
  }

  lemma CallsNeed(setup: Setup, s: State, m: Message)
    ensures Next(setup, s, m).initialized <==> s.initialized || (m.Request? && m.name == "initialize")
    ensures Next(setup, s, m).calls != s.calls ==>
              m.Request? && m.name == "tools/call" && s.initialized && |Next(setup, s, m).calls| == |s.calls| + 1
  {
    hide AnswerTo, ParseCall;
  }

  /** A session is initialized exactly if an `initialize` request came; before that no tool has run. */
  lemma {:induction false} NoToolBeforeInitialize(setup: Setup, s: State, ins: seq<Incoming>)
    requires !s.initialized
    ensures StateAfter(setup, s, ins).initialized <==> exists i :: 0 <= i < |ins| && Initializes(ins[i])
    ensures !StateAfter(setup, s, ins).initialized ==> StateAfter(setup, s, ins).calls == s.calls
  {
    if ins != [] {
      hide Next, Initializes;
      NoToolBeforeInitialize(setup, s, Init(ins));
      var last := |ins| - 1;
      assert Initializes(ins[last]) <==> IsRequest(Last(ins)) && Last(ins).message.name == "initialize" by {
        InitializesMeans(Last(ins));
      }
      if Last(ins).Received? {
        CallsNeed(setup, StateAfter(setup, s, Init(ins)), Last(ins).message);
      }
      assert forall i :: 0 <= i < last ==> Init(ins)[i] == ins[i];
    }
  }

  lemma InitializesMeans(incoming: Incoming)
    ensures Initializes(incoming) <==> IsRequest(incoming) && incoming.message.name == "initialize"
  {
  }

  /** Whenever a tool runs, an `initialize` came before the `tools/call` that runs it. */
  lemma ToolAfterInitialize(setup: Setup, s: State, ins: seq<Incoming>, i: nat)
    requires !s.initialized && i < |ins|
    requires StateAfter(setup, s, ins[..i + 1]).calls != StateAfter(setup, s, ins[..i]).calls
    ensures CallsTool(ins[i]) && exists j :: 0 <= j < i && Initializes(ins[j])
  {
    hide Next, StateAfter, Initializes;
    OneMore(setup, s, ins, i);
    CallsNeed(setup, StateAfter(setup, s, ins[..i]), ins[i].message);
    NoToolBeforeInitialize(setup, s, ins[..i]);
    var j :| 0 <= j < |ins[..i]| && Initializes(ins[..i][j]);
    assert Initializes(ins[j]);
  }
}
