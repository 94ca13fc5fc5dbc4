/** Incremental turns of a connection, rebuilt into whole requests.

A client may send only what is new. The connection keeps the last accepted request and its output, so
that each request it forwards carries the history since the last full transcript. */
module Conversations {

  import opened Common

  /** An input or output item; some kinds show that a client sent its whole transcript. */
  datatype Item = Item(content: int, telling: bool)

  /** A message as it decodes: its input may be malformed, and settings may be absent. */
  datatype Message = Message(
    append: bool, previous: string, input: Option<seq<Item>>, model: Option<string>, instructions: Option<string>, generate: bool)

  /** A whole request. An overflowing one is kept without its input. */
  datatype Request = Request(input: seq<Item>, model: Option<string>, instructions: Option<string>)

  datatype Response = Response(id: string, output: seq<Item>)

  /** Encoded sizes, and the limit on them. */
  datatype Sizes = Sizes(limit: int, message: Message -> nat, request: Request -> nat, item: Item -> nat)

  datatype State = State(request: Option<Request>, output: seq<Item>, responseId: string, overflow: bool, continuation: bool)

  datatype Reason = TooLarge | MissingHistory | InvalidInput | UnknownResponse | RetainedTooLarge | InvalidModel | NormalizedTooLarge

  datatype Normalized = Whole(request: Request, prewarm: bool) | Rejected(reason: Reason)

  predicate Full(items: seq<Item>) {
    exists i :: 0 <= i < |items| && items[i].telling
  }

  function Inherit(own: Option<string>, kept: Option<string>): Option<string> {
    if own.Some? then own else kept
  }

  /** The message's own items after the retained history, or alone if they are a full transcript or
  the first. */
  function Merged(c: State, items: seq<Item>): seq<Item> {
    if c.request.None? || Full(items) then items else c.request.value.input + c.output + items
  }

  function Rebuilt(c: State, m: Message, items: seq<Item>): Request {
    Request(Merged(c, items),
            if c.request.Some? then Inherit(m.model, c.request.value.model) else m.model,
            if c.request.Some? then Inherit(m.instructions, c.request.value.instructions) else m.instructions)
  }

  function Normalize(z: Sizes, c: State, m: Message): Normalized {
    if z.limit < z.message(m) then Rejected(TooLarge)
    else if m.append && c.request.None? then Rejected(MissingHistory)
    else if m.input.None? then Rejected(InvalidInput)
    else if m.previous != "" && m.previous != c.responseId && !Full(m.input.value) then Rejected(UnknownResponse)
    else if c.overflow && c.request.Some? && !Full(m.input.value) then Rejected(RetainedTooLarge)
    else
      var r := Rebuilt(c, m, m.input.value);
      if r.model.None? || r.model.value == "" then Rejected(InvalidModel)
      else if z.limit < z.request(r) then Rejected(NormalizedTooLarge)
      else Whole(r, !m.generate)
  }

  /** A request goes on from its connection's history if it builds on it or names it. */
  predicate Continues(z: Sizes, c: State, m: Message) {
    Normalize(z, c, m).Whole? && c.request.Some? && (!Full(m.input.value) || m.previous != "" || m.append)
  }

  function Total(z: Sizes, items: seq<Item>): nat {
    if items == [] then 0 else Total(z, items[..|items| - 1]) + z.item(items[|items| - 1])
  }

  function Accept(z: Sizes, c: State, request: Request, response: Response): State {
    if response.id == "" then c
    else
      var overflow := z.limit < z.request(request) + Total(z, response.output);
      c.(request := Some(if overflow then request.(input := []) else request),
         output := if overflow then [] else response.output,
         responseId := response.id, overflow := overflow)
  }

  /** A forwarded request has the settings the message gives, or else those of the request before it, and names
  a model. */
  lemma SettingsAreTheLastGiven(z: Sizes, c: State, m: Message)
    requires Normalize(z, c, m).Whole?
    ensures var r := Normalize(z, c, m).request;
      && (if m.model.Some? then r.model == m.model else c.request.Some? && r.model == c.request.value.model)
      && (if m.instructions.Some? || c.request.None? then r.instructions == m.instructions else r.instructions == c.request.value.instructions)
      && r.model.Some? && r.model.value != ""
  {
  }

  // ---- Histories ----

  /** An accepted turn. */
  datatype Turn = Turn(input: seq<Item>, output: seq<Item>, id: string)

  function Flat(turns: seq<Turn>): seq<Item> {
    if turns == [] then []
    else Flat(turns[..|turns| - 1]) + turns[|turns| - 1].input + turns[|turns| - 1].output
  }

  /** What a connection has accepted: the turns since the last full transcript, whether they outgrew
  the limit, and the settings last given. */
  datatype History = History(turns: seq<Turn>, outgrown: bool, model: Option<string>, instructions: Option<string>)

  /** One message and what came of it: a response, or a failed turn. */
  datatype Event = Event(message: Message, response: Option<Response>)

  predicate Accepts(z: Sizes, c: State, e: Event) {
    Normalize(z, c, e.message).Whole? && e.response.Some? && e.response.value.id != ""
  }

  function Step(z: Sizes, c: State, e: Event): State {
    var d := c.(continuation := Continues(z, c, e.message));
    var n := Normalize(z, c, e.message);
    if n.Whole? && e.response.Some? then Accept(z, d, n.request, e.response.value) else d
  }

  function Extend(z: Sizes, h: History, e: Event): History
    requires e.message.input.Some? && e.response.Some?
  {
    var turn := Turn(e.message.input.value, e.response.value.output, e.response.value.id);
    var turns := if Full(e.message.input.value) then [turn] else h.turns + [turn];
    var model, instructions := Inherit(e.message.model, h.model), Inherit(e.message.instructions, h.instructions);
    var input := if Full(e.message.input.value) then turn.input else Flat(h.turns) + turn.input;
    History(turns, z.limit < z.request(Request(input, model, instructions)) + Total(z, turn.output), model, instructions)
  }

  function Record(z: Sizes, c: State, h: History, e: Event): History {
    if Accepts(z, c, e) then Extend(z, h, e) else h
  }

  /** The state holds exactly the history. */
  predicate Holds(c: State, h: History) {
    && (c.request.None? <==> h.turns == [])
    && (c.request.None? ==> h == History([], false, None, None) && c.output == [] && c.responseId == "" && !c.overflow)
    && (c.request.Some? ==>
        && c.overflow == h.outgrown && c.responseId == h.turns[|h.turns| - 1].id
        && c.request.value.model == h.model && c.request.value.instructions == h.instructions
        && (!c.overflow ==> c.request.value.input + c.output == Flat(h.turns)))
  }

  function Start(): State { State(None, [], "", false, false) }

  function Blank(): History { History([], false, None, None) }

  lemma FlatGrows(turns: seq<Turn>, t: Turn)
    ensures Flat(turns + [t]) == Flat(turns) + t.input + t.output
  {
    assert (turns + [t])[..|turns|] == turns;
  }

  lemma RebuiltFromHistory(z: Sizes, c: State, h: History, m: Message)
    requires Holds(c, h) && Normalize(z, c, m).Whole?
    ensures var r := Normalize(z, c, m).request;
      && m.input.Some?
      && r.input == (if Full(m.input.value) then m.input.value else Flat(h.turns) + m.input.value)
      && r.model == Inherit(m.model, h.model) && r.instructions == Inherit(m.instructions, h.instructions)
  {
    if c.request.None? {
      assert Flat(h.turns) == [];
    }
  }

  lemma ExtendFlat(z: Sizes, h: History, e: Event)
    requires e.message.input.Some? && e.response.Some?
    ensures var t := Extend(z, h, e);
      && t.turns != [] && t.turns[|t.turns| - 1].id == e.response.value.id
      && Flat(t.turns) == (if Full(e.message.input.value) then e.message.input.value else Flat(h.turns) + e.message.input.value) + e.response.value.output
  {
    var turn := Turn(e.message.input.value, e.response.value.output, e.response.value.id);
    FlatGrows(h.turns, turn);
    FlatGrows([], turn);
    assert [] + [turn] == [turn];
    hide Flat;
  }

  lemma AcceptHolds(z: Sizes, c: State, h: History, e: Event, whole: Request)
    requires e.message.input.Some? && e.response.Some? && e.response.value.id != ""
    requires whole.input == if Full(e.message.input.value) then e.message.input.value else Flat(h.turns) + e.message.input.value
    requires whole.model == Inherit(e.message.model, h.model) && whole.instructions == Inherit(e.message.instructions, h.instructions)
    ensures Holds(Accept(z, c, whole, e.response.value), Extend(z, h, e))
  {
    ExtendFlat(z, h, e);
    assert whole == Request(whole.input, whole.model, whole.instructions);
    hide Flat, Inherit, Full, Total;
  }

  lemma StepHolds(z: Sizes, c: State, h: History, e: Event)
    requires Holds(c, h)
    ensures Holds(Step(z, c, e), Record(z, c, h, e))
  {
    if Accepts(z, c, e) {
      RebuiltFromHistory(z, c, h, e.message);
      AcceptHolds(z, c.(continuation := Continues(z, c, e.message)), h, e, Normalize(z, c, e.message).request);
    }
    hide Normalize, Extend, Continues;
  }

  function Run(z: Sizes, c: State, es: seq<Event>): State
    decreases |es|
  {
    if es == [] then c else Run(z, Step(z, c, es[0]), es[1..])
  }

  function Accepted(z: Sizes, c: State, h: History, es: seq<Event>): History
    decreases |es|
  {
    if es == [] then h else Accepted(z, Step(z, c, es[0]), Record(z, c, h, es[0]), es[1..])
  }

  lemma {:induction false} RunHolds(z: Sizes, c: State, h: History, es: seq<Event>)
    requires Holds(c, h)
    ensures Holds(Run(z, c, es), Accepted(z, c, h, es))
    decreases |es|
  {
    if es != [] {
      StepHolds(z, c, h, es[0]);
      RunHolds(z, Step(z, c, es[0]), Record(z, c, h, es[0]), es[1..]);
    }
  }

  /** After any run of messages, whole or incremental, accepted, rejected or failed: the next request
  that is forwarded carries every accepted input and output since the last full transcript, in order,
  and then the message's own; nothing of a rejected or failed turn, and never a part of the history. */
  lemma IncrementalIsWhole(z: Sizes, es: seq<Event>, m: Message)
    requires Normalize(z, Run(z, Start(), es), m).Whole?
    ensures var h := Accepted(z, Start(), Blank(), es);
      var r := Normalize(z, Run(z, Start(), es), m).request;
      && m.input.Some?
      && r.input == (if Full(m.input.value) then m.input.value else Flat(h.turns) + m.input.value)
      && r.model == Inherit(m.model, h.model) && r.instructions == Inherit(m.instructions, h.instructions)
      && (!Full(m.input.value) ==> !h.outgrown)
      && (m.previous != "" && !Full(m.input.value) ==> h.turns != [] && m.previous == h.turns[|h.turns| - 1].id)
  {
    RunHolds(z, Start(), Blank(), es);
    RebuiltFromHistory(z, Run(z, Start(), es), Accepted(z, Start(), Blank(), es), m);
  }

  /** A message that is not a full transcript is forwarded iff it is well formed and within the limits
  and the history it needs is there: known, and not outgrown. */
  lemma ForwardedIff(z: Sizes, es: seq<Event>, m: Message)
    requires m.input.Some? && !Full(m.input.value)
    ensures var h := Accepted(z, Start(), Blank(), es);
      var model, instructions := Inherit(m.model, h.model), Inherit(m.instructions, h.instructions);
      Normalize(z, Run(z, Start(), es), m).Whole? <==> (
        && z.message(m) <= z.limit && !h.outgrown && (m.append ==> h.turns != [])
        && (m.previous == "" || (h.turns != [] && m.previous == h.turns[|h.turns| - 1].id))
        && model.Some? && model.value != ""
        && z.request(Request(Flat(h.turns) + m.input.value, model, instructions)) <= z.limit)
  {
    var c, h := Run(z, Start(), es), Accepted(z, Start(), Blank(), es);
    RunHolds(z, Start(), Blank(), es);
    if c.request.None? {
      assert Flat(h.turns) == [] && Flat(h.turns) + m.input.value == m.input.value;
    }
  }

  /** A rejected message or a failed turn leaves everything later turns depend on. */
  lemma RejectedChangesNothing(z: Sizes, c: State, e: Event)
    requires !Accepts(z, c, e)
    ensures Step(z, c, e) == c.(continuation := Continues(z, c, e.message))
  {
  }

  // ---- The connection ----

  class Conversation {
    var request: Option<Request>
    var output: seq<Item>
    var responseId: string
    var overflow: bool
    var continuation: bool

    function Current(): State
      reads this
    {
      State(request, output, responseId, overflow, continuation)
    }

    constructor ()
      ensures Current() == Start()
    {
      request, output, responseId, overflow, continuation := None, [], "", false, false;
    }

    method FullTranscript(items: seq<Item>) returns (full: bool)
      ensures full == Full(items)
    {
      for i := 0 to |items|
        invariant forall j :: 0 <= j < i ==> !items[j].telling
      {
        if items[i].telling {
          return true;
        }
      }
      return false;
    }

    method NormalizeMessage(z: Sizes, m: Message) returns (n: Normalized)
      modifies this`continuation
      ensures n == Normalize(z, old(Current()), m)
      ensures Current() == old(Current()).(continuation := Continues(z, old(Current()), m))
    {
      continuation := false;
      if z.limit < z.message(m) {
        return Rejected(TooLarge);
      }
      if m.append && request.None? {
        return Rejected(MissingHistory);
      }
      if m.input.None? {
        return Rejected(InvalidInput);
      }
      var items := m.input.value;
      var full := FullTranscript(items);
      if m.previous != "" && m.previous != responseId && !full {
        return Rejected(UnknownResponse);
      }
      var appendHistory := request.Some? && !full;
      if overflow && appendHistory {
        return Rejected(RetainedTooLarge);
      }
      if appendHistory {
        items := request.value.input + output + items;
      }
      var model, instructions := m.model, m.instructions;
      if request.Some? {
        model, instructions := Inherit(model, request.value.model), Inherit(instructions, request.value.instructions);
      }
      if model.None? || model.value == "" {
        return Rejected(InvalidModel);
      }
      var whole := Request(items, model, instructions);
      if z.limit < z.request(whole) {
        return Rejected(NormalizedTooLarge);
      }
      continuation := request.Some? && (appendHistory || m.previous != "" || m.append);
      return Whole(whole, !m.generate);
    }

    method AcceptResponse(z: Sizes, whole: Request, response: Response) returns (ok: bool)
      modifies this
      ensures Current() == Accept(z, old(Current()), whole, response) && ok == (response.id != "")
    {
      if response.id == "" {
        return false;
      }
      var size := z.request(whole);
      for i := 0 to |response.output|
        invariant size == z.request(whole) + Total(z, response.output[..i])
      {
        assert response.output[..i + 1][..i] == response.output[..i];
        size := size + z.item(response.output[i]);
      }
      assert response.output[..|response.output|] == response.output;
      responseId := response.id;
      overflow := z.limit < size;
      request := Some(if overflow then whole.(input := []) else whole);
      output := if overflow then [] else response.output;
      return true;
    }
  }
}
