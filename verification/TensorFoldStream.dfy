/** A TensorFold reply, read line by line up to `[DONE]` and checked as it ends. */
module TensorFoldStream {
  import opened Basics

  datatype Choice = Choice(content: string, thought: Option<string>, finish: string)

  datatype Frame =
    | ErrorFrame(overflow: bool)
    | Chunk(usage: Option<int>, choices: seq<Choice>)

  datatype Body = NotData | DoneMark | NotJson | Data(frame: Frame)

  /** One line of the stream, and whether it came after the deadline. */
  datatype Line = Line(late: bool, body: Body)

  datatype Failure = Overflow | ServerError | UsageBeforeFinish | Deadline | BadJson | NoFinish | NoUsage | EndedEarly

  datatype State = State(content: seq<string>, reasoning: seq<string>, sawReasoning: bool, finish: Option<string>,
                         usage: Option<int>)

  const FRESH := State([], [], false, None, None)

  datatype Outcome<T> = Ok(value: T) | Fails(failure: Failure)

  // --- one frame ---

  /** The content a frame's choices add, piece by piece. */
  function Pieces(choices: seq<Choice>): seq<string> {
    if choices == [] then []
    else
      var last := choices[|choices| - 1];
      Pieces(choices[..|choices| - 1]) + if last.content != "" then [last.content] else []
  }

  function Thoughts(choices: seq<Choice>): seq<string> {
    if choices == [] then []
    else
      var last := choices[|choices| - 1];
      Thoughts(choices[..|choices| - 1]) + if last.thought.Some? then [last.thought.value] else []
  }

  function FinishOf(choices: seq<Choice>): Option<string> {
    if choices == [] then None
    else
      var last := choices[|choices| - 1];
      if last.finish != "" then Some(last.finish) else FinishOf(choices[..|choices| - 1])
  }

  function ReadFrame(s: State, f: Frame): Outcome<State> {
    match f
    case ErrorFrame(overflow) => Fails(if overflow then Overflow else ServerError)
    case Chunk(usage, choices) =>
      if usage.Some? && s.finish.None? then Fails(UsageBeforeFinish)
      else Ok(State(
        s.content + Pieces(choices), s.reasoning + Thoughts(choices), s.sawReasoning || Thoughts(choices) != [],
        if FinishOf(choices).Some? then FinishOf(choices) else s.finish,
        if usage.Some? then usage else s.usage))
  }

  // --- one stream ---

  /** Reading a stream from its line `k` on. */
  function Consume(lines: seq<Line>, k: nat, s: State): Outcome<State>
    requires k <= |lines|
    decreases |lines| - k
  {
    if k == |lines| then Fails(EndedEarly)
    else if lines[k].late then Fails(Deadline)
    else match lines[k].body
      case NotData => Consume(lines, k + 1, s)
      case DoneMark => if s.finish.None? then Fails(NoFinish) else if s.usage.None? then Fails(NoUsage) else Ok(s)
      case NotJson => Fails(BadJson)
      case Data(frame) =>
        match ReadFrame(s, frame)
        case Fails(failure) => Fails(failure)
        case Ok(next) => Consume(lines, k + 1, next)
  }

  function Streamed(lines: seq<Line>): Outcome<State> {
    Consume(lines, 0, FRESH)
  }

  /** How many lines are read before one stops the stream, and the state then. */
  function ReadOn(lines: seq<Line>, k: nat, s: State): (nat, State)
    requires k <= |lines|
    decreases |lines| - k
  {
    if k == |lines| || lines[k].late || lines[k].body.DoneMark? || lines[k].body.NotJson? then (k, s)
    else if lines[k].body.NotData? then ReadOn(lines, k + 1, s)
    else match ReadFrame(s, lines[k].body.frame)
      case Fails(_) => (k, s)
      case Ok(next) => ReadOn(lines, k + 1, next)
  }

  function Join(pieces: seq<string>): string {
    if pieces == [] then "" else pieces[0] + Join(pieces[1..])
  }

  /** The reply being read, changed frame by frame. */
  class Reply {
    var content: seq<string>
    var reasoning: seq<string>
    var sawReasoning: bool
    var finishReason: Option<string>
    var usage: Option<int>

    ghost function Contents(): State
      reads this
    {
      State(content, reasoning, sawReasoning, finishReason, usage)
    }

    constructor ()
      ensures Contents() == FRESH
    {
      content, reasoning, sawReasoning, finishReason, usage := [], [], false, None, None;
    }

    /** Takes one frame: the content it adds, or the failure it is. */
    method Read(frame: Frame) returns (added: Outcome<seq<string>>)
      modifies this
      ensures match ReadFrame(old(Contents()), frame)
        case Fails(failure) => added == Fails(failure)
        case Ok(s) => Contents() == s && frame.Chunk? && added == Ok(Pieces(frame.choices))
    {
      if frame.ErrorFrame? {
        return Fails(if frame.overflow then Overflow else ServerError);
      }
      if frame.usage.Some? {
        if finishReason.None? {
          return Fails(UsageBeforeFinish);
        }
        usage := frame.usage;
      }
      var pieces := [];
      var choices := frame.choices;
      for i := 0 to |choices|
        invariant pieces == Pieces(choices[..i])
        invariant content == old(content) && reasoning == old(reasoning) + Thoughts(choices[..i])
        invariant sawReasoning == (old(sawReasoning) || Thoughts(choices[..i]) != [])
        invariant finishReason == if FinishOf(choices[..i]).Some? then FinishOf(choices[..i]) else old(finishReason)
        invariant usage == if frame.usage.Some? then frame.usage else old(usage)
      {
        var choice := choices[i];
        assert choices[..i + 1][..i] == choices[..i];
        if choice.content != "" {
          pieces := pieces + [choice.content];
        }
        if choice.thought.Some? {
          sawReasoning := true;
          reasoning := reasoning + [choice.thought.value];
        }
        if choice.finish != "" {
          finishReason := Some(choice.finish);
        }
      }
      assert choices[..|choices|] == choices;
      content := content + pieces;
      return Ok(pieces);
    }
  }

  /** `_complete` over one stream's lines: the message's content, or the failure raised. */
  method Complete(lines: seq<Line>) returns (text: Outcome<string>)
    ensures match Streamed(lines)
      case Fails(failure) => text == Fails(failure)
      case Ok(s) => text == Ok(Join(s.content))
  {
    var reply := new Reply();
    for i := 0 to |lines|
      invariant fresh(reply)
      invariant Streamed(lines) == Consume(lines, i, reply.Contents())
    {
      if lines[i].late {
        return Fails(Deadline);
      }
      match lines[i].body {
        case NotData =>
        case DoneMark =>
          if reply.finishReason.None? {
            return Fails(NoFinish);
          }
          if reply.usage.None? {
            return Fails(NoUsage);
          }
          return Ok(Join(reply.content));
        case NotJson => return Fails(BadJson);
        case Data(frame) =>
          var added := reply.Read(frame);
          if added.Fails? {
            return Fails(added.failure);
          }
      }
    }
    return Fails(EndedEarly);
  }

  /** `chat_stream`: the pieces yielded, the lines read, and the failure that ended them if one did. */
  method ChatStream(lines: seq<Line>) returns (pieces: seq<string>, failure: Option<Failure>, read: nat)
    ensures match Streamed(lines)
      case Fails(f) => failure == Some(f)
      case Ok(s) => failure == None && pieces == s.content
    ensures var (n, end) := ReadOn(lines, 0, FRESH); read == n && pieces == end.content
  {
    var reply := new Reply();
    pieces, read := [], 0;
    while read < |lines|
      invariant fresh(reply) && pieces == reply.content && read <= |lines|
      invariant Streamed(lines) == Consume(lines, read, reply.Contents())
      invariant ReadOn(lines, 0, FRESH) == ReadOn(lines, read, reply.Contents())
    {
      if lines[read].late {
        return pieces, Some(Deadline), read;
      }
      match lines[read].body {
        case NotData =>
        case DoneMark =>
          if reply.finishReason.None? {
            return pieces, Some(NoFinish), read;
          }
          return pieces, if reply.usage.None? then Some(NoUsage) else None, read;
        case NotJson => return pieces, Some(BadJson), read;
        case Data(frame) =>
          var added := reply.Read(frame);
          if added.Fails? {
            return pieces, Some(added.failure), read;
          }
          pieces := pieces + added.value;
      }
      read := read + 1;
    }
    return pieces, Some(EndedEarly), read;
  }

  // --- which streams are replies ---

  predicate HasUsage(l: Line) {
    l.body.Data? && l.body.frame.Chunk? && l.body.frame.usage.Some?
  }

  predicate HasFinish(l: Line) {
    l.body.Data? && l.body.frame.Chunk? && exists c :: c in l.body.frame.choices && c.finish != ""
  }

  predicate Clean(l: Line) {
    !l.late && !l.body.DoneMark? && !l.body.NotJson? && (l.body.Data? ==> l.body.frame.Chunk?)
  }

  ghost predicate UsageBefore(lines: seq<Line>, n: int)
    requires n <= |lines|
  {
    exists u :: 0 <= u < n && HasUsage(lines[u])
  }

  ghost predicate FinishBefore(lines: seq<Line>, n: int)
    requires n <= |lines|
  {
    exists f :: 0 <= f < n && HasFinish(lines[f])
  }

  /** A line the stream cannot be read past: `[DONE]`, an unclean one, or a usage with no finish in an
      earlier line. */
  ghost predicate Stops(lines: seq<Line>, k: int) {
    0 <= k < |lines| && !(Clean(lines[k]) && (HasUsage(lines[k]) ==> FinishBefore(lines, k)))
  }

  /** The lines make a reply: none stops the stream before a `[DONE]` in time, and a usage arrived. */
  ghost predicate Accepts(lines: seq<Line>, n: int) {
    && 0 <= n < |lines| && lines[n].body.DoneMark? && !lines[n].late
    && (forall i :: 0 <= i < n ==> !Stops(lines, i))
    && UsageBefore(lines, n)
  }

  /** The choices a line brings. */
  function Brought(l: Line): seq<Choice> {
    if l.body.Data? && l.body.frame.Chunk? then l.body.frame.choices else []
  }

  /** The choices of the first `n` lines, frame by frame. */
  function Choices(lines: seq<Line>, n: nat): seq<Choice>
    requires n <= |lines|
  {
    if n == 0 then [] else Choices(lines, n - 1) + Brought(lines[n - 1])
  }

  /** The state after the first `n` lines: what has arrived, and nothing else. */
  ghost predicate Holds(lines: seq<Line>, n: nat, s: State)
    requires n <= |lines|
  {
    && s.content == Pieces(Choices(lines, n)) && s.reasoning == Thoughts(Choices(lines, n))
      && s.sawReasoning == (Thoughts(Choices(lines, n)) != [])
    && (s.finish.Some? <==> FinishBefore(lines, n)) && (s.usage.Some? <==> UsageBefore(lines, n))
  }

  lemma {:induction false} FinishIsSome(choices: seq<Choice>)
    ensures FinishOf(choices).Some? <==> exists c :: c in choices && c.finish != ""
  {
    if choices == [] {
    } else {
      FinishIsSome(choices[..|choices| - 1]);
      assert choices == choices[..|choices| - 1] + [choices[|choices| - 1]];
    }
  }

  lemma {:induction false} ArrivalsNext(lines: seq<Line>, k: nat)
    requires k < |lines|
    ensures FinishBefore(lines, k + 1) <==> FinishBefore(lines, k) || HasFinish(lines[k])
    ensures UsageBefore(lines, k + 1) <==> UsageBefore(lines, k) || HasUsage(lines[k])
  {
  }

  lemma {:induction false} PiecesJoin(a: seq<Choice>, b: seq<Choice>)
    ensures Pieces(a + b) == Pieces(a) + Pieces(b)
  {
    if b == [] {
      assert a + b == a;
    } else {
      var init, last := b[..|b| - 1], b[|b| - 1];
      PiecesJoin(a, init);
      assert (a + b)[..|a + b| - 1] == a + init && (a + b)[|a + b| - 1] == last;
      assert Pieces(a + b) == Pieces(a + init) + if last.content != "" then [last.content] else [];
    }
  }

  lemma {:induction false} ThoughtsJoin(a: seq<Choice>, b: seq<Choice>)
    ensures Thoughts(a + b) == Thoughts(a) + Thoughts(b)
  {
    if b == [] {
      assert a + b == a;
    } else {
      var init, last := b[..|b| - 1], b[|b| - 1];
      ThoughtsJoin(a, init);
      assert (a + b)[..|a + b| - 1] == a + init && (a + b)[|a + b| - 1] == last;
      assert Thoughts(a + b) == Thoughts(a + init) + if last.thought.Some? then [last.thought.value] else [];
    }
  }

  lemma {:induction false} ChoicesNext(lines: seq<Line>, k: nat)
    requires k < |lines|
    ensures Pieces(Choices(lines, k + 1)) == Pieces(Choices(lines, k)) + Pieces(Brought(lines[k]))
    ensures Thoughts(Choices(lines, k + 1)) == Thoughts(Choices(lines, k)) + Thoughts(Brought(lines[k]))
  {
    PiecesJoin(Choices(lines, k), Brought(lines[k]));
    ThoughtsJoin(Choices(lines, k), Brought(lines[k]));
  }

  /** A clean line is read exactly when it does not stop the stream, and the state holds it then. */
  lemma {:induction false} LineHolds(lines: seq<Line>, k: nat, s: State)
    requires k < |lines| && Holds(lines, k, s) && Clean(lines[k])
    ensures lines[k].body.NotData? ==> Holds(lines, k + 1, s) && !Stops(lines, k)
    ensures lines[k].body.Data? ==>
      var read := ReadFrame(s, lines[k].body.frame);
      (read.Ok? <==> !Stops(lines, k)) && (read.Ok? ==> Holds(lines, k + 1, read.value))
  {
    ArrivalsNext(lines, k);
    ChoicesNext(lines, k);
    if lines[k].body.Data? { FinishIsSome(lines[k].body.frame.choices); }
  }

  /** No reply ends past a line that stops the stream, and none ends before. */
  lemma {:induction false} EndsWhereItStops(lines: seq<Line>, k: nat)
    requires k <= |lines| && (forall i :: 0 <= i < k ==> !Stops(lines, i)) && (k == |lines| || Stops(lines, k))
    ensures forall n :: Accepts(lines, n) ==> n == k
  {
    forall n | 0 <= n < k
      ensures !lines[n].body.DoneMark?
    {
      assert !Stops(lines, n);
    }
  }

  lemma {:induction false} UsageHasFinish(lines: seq<Line>, n: nat)
    requires n <= |lines| && UsageBefore(lines, n) && forall i :: 0 <= i < n ==> !Stops(lines, i)
    ensures FinishBefore(lines, n)
  {
    var u :| 0 <= u < n && HasUsage(lines[u]);
    assert !Stops(lines, u);
  }

  /** One line on: past a line that does not stop the stream, or stopped at it. */
  lemma {:induction false} ReadOnNext(lines: seq<Line>, k: nat, s: State) returns (next: State)
    requires k < |lines| && Holds(lines, k, s)
    ensures Stops(lines, k) ==> ReadOn(lines, k, s) == (k, s)
    ensures !Stops(lines, k) ==> Holds(lines, k + 1, next) && ReadOn(lines, k, s) == ReadOn(lines, k + 1, next)
  {
    next := s;
    if Clean(lines[k]) {
      LineHolds(lines, k, s);
      if lines[k].body.Data? && ReadFrame(s, lines[k].body.frame).Ok? {
        next := ReadFrame(s, lines[k].body.frame).value;
      }
    }
  }

  ghost predicate PassedTo(lines: seq<Line>, n: nat) {
    n <= |lines| && forall i :: 0 <= i < n ==> !Stops(lines, i)
  }

  /** Stopped past every line that does not stop the stream, holding them. */
  ghost predicate StoppedAt(lines: seq<Line>, n: nat, end: State) {
    PassedTo(lines, n) && Holds(lines, n, end) && (n == |lines| || Stops(lines, n))
  }

  ghost predicate ReadsToItsStop(lines: seq<Line>, k: nat, s: State)
    requires k <= |lines|
  {
    var (n, end) := ReadOn(lines, k, s);
    StoppedAt(lines, n, end)
  }

  lemma {:induction false} PassOne(lines: seq<Line>, k: nat, s: State, next: State)
    requires k < |lines| && ReadOn(lines, k, s) == ReadOn(lines, k + 1, next) && ReadsToItsStop(lines, k + 1, next)
    ensures ReadsToItsStop(lines, k, s)
  {
  }

  /** Reading on from a held state ends at its stop. */
  lemma {:induction false} ReadOnStops(lines: seq<Line>, k: nat, s: State)
    requires k <= |lines| && Holds(lines, k, s) && PassedTo(lines, k)
    ensures ReadsToItsStop(lines, k, s)
    decreases |lines| - k
  {
    if k < |lines| {
      var next := ReadOnNext(lines, k, s);
      if !Stops(lines, k) {
        assert PassedTo(lines, k + 1);
        ReadOnStops(lines, k + 1, next);
        PassOne(lines, k, s, next);
      }
    }
  }

  /** A stream is read to its end exactly when reading on stops at a `[DONE]` in time with a finish and
      a usage held. */
  lemma {:induction false} ConsumeReadsOn(lines: seq<Line>, k: nat, s: State)
    requires k <= |lines|
    ensures var (n, end) := ReadOn(lines, k, s);
      && n <= |lines|
      && (Consume(lines, k, s).Ok? <==>
            n < |lines| && !lines[n].late && lines[n].body.DoneMark? && end.finish.Some? && end.usage.Some?)
      && (Consume(lines, k, s).Ok? ==> Consume(lines, k, s).value == end)
    decreases |lines| - k
  {
    if k < |lines| && !lines[k].late {
      match lines[k].body
      case NotData => ConsumeReadsOn(lines, k + 1, s);
      case Data(frame) => if ReadFrame(s, frame).Ok? { ConsumeReadsOn(lines, k + 1, ReadFrame(s, frame).value); }
      case DoneMark =>
      case NotJson =>
    }
  }

  /** From the first line: a message results exactly when the lines before the stop make a reply. */
  lemma {:induction false} StreamReadsOn(lines: seq<Line>)
    ensures var (n, end) := ReadOn(lines, 0, FRESH);
      && StoppedAt(lines, n, end)
      && (Streamed(lines).Ok? <==> Accepts(lines, n)) && (Streamed(lines).Ok? ==> Streamed(lines).value == end)
  {
    ReadOnStops(lines, 0, FRESH);
    ConsumeReadsOn(lines, 0, FRESH);
    var (n, end) := ReadOn(lines, 0, FRESH);
    if UsageBefore(lines, n) { UsageHasFinish(lines, n); }
  }

  // --- what the choices say ---

  /** Every choice's content, one after another. */
  function Text(choices: seq<Choice>): string {
    if choices == [] then "" else choices[0].content + Text(choices[1..])
  }

  /** Every choice's thought, where it has one, one after another. */
  function Reasoning(choices: seq<Choice>): string {
    if choices == [] then "" else choices[0].thought.Or("") + Reasoning(choices[1..])
  }

  ghost predicate SomeThinks(choices: seq<Choice>) {
    exists i :: 0 <= i < |choices| && choices[i].thought.Some?
  }

  /** The last finish any choice gave. */
  ghost predicate LastFinish(choices: seq<Choice>, finish: Option<string>) {
    if finish.None? then forall i :: 0 <= i < |choices| ==> choices[i].finish == ""
    else exists i :: FinishesAt(choices, i, finish.value)
  }

  ghost predicate FinishesAt(choices: seq<Choice>, i: int, finish: string) {
    && 0 <= i < |choices| && choices[i].finish == finish != ""
    && forall j :: i < j < |choices| ==> choices[j].finish == ""
  }

  /** The usage of the last line that gave one. */
  ghost predicate LastUsage(lines: seq<Line>, n: nat, usage: Option<int>)
    requires n <= |lines|
  {
    if usage.None? then forall i :: 0 <= i < n ==> !HasUsage(lines[i])
    else exists i :: UsedAt(lines, n, i, usage.value)
  }

  ghost predicate UsedAt(lines: seq<Line>, n: nat, i: int, usage: int)
    requires n <= |lines|
  {
    && 0 <= i < n && HasUsage(lines[i]) && lines[i].body.frame.usage == Some(usage)
    && forall j :: i < j < n ==> !HasUsage(lines[j])
  }

  lemma {:induction false} JoinNext(a: seq<string>, b: seq<string>)
    ensures Join(a + b) == Join(a) + Join(b)
  {
    if a == [] {
      assert a + b == b;
    } else {
      assert (a + b)[0] == a[0] && (a + b)[1..] == a[1..] + b;
      JoinNext(a[1..], b);
    }
  }

  lemma {:induction false} TextJoins(a: seq<Choice>, b: seq<Choice>)
    ensures Text(a + b) == Text(a) + Text(b) && Reasoning(a + b) == Reasoning(a) + Reasoning(b)
  {
    if a == [] {
      assert a + b == b;
    } else {
      assert (a + b)[0] == a[0] && (a + b)[1..] == a[1..] + b;
      TextJoins(a[1..], b);
    }
  }

  lemma {:induction false} OneChoice(c: Choice)
    ensures Text([c]) == c.content && Reasoning([c]) == c.thought.Or("")
    ensures Join([]) == "" && Join([c.content]) == c.content
    ensures c.thought.Some? ==> Join([c.thought.value]) == c.thought.value
  {
    assert [c][1..] == [] && [c.content][1..] == [];
    if c.thought.Some? { assert [c.thought.value][1..] == []; }
  }

  /** A frame's pieces join to its choices' contents, and its thoughts likewise. */
  lemma {:induction false} FrameText(choices: seq<Choice>)
    ensures Join(Pieces(choices)) == Text(choices) && Join(Thoughts(choices)) == Reasoning(choices)
  {
    if choices == [] {
    } else {
      var n := |choices| - 1;
      var init, last := choices[..n], choices[n];
      FrameText(init);
      OneChoice(last);
      TextJoins(init, [last]);
      JoinNext(Pieces(init), if last.content != "" then [last.content] else []);
      JoinNext(Thoughts(init), if last.thought.Some? then [last.thought.value] else []);
      assert init + [last] == choices;
    }
  }

  lemma {:induction false} SomeJoins(a: seq<Choice>, b: seq<Choice>)
    ensures SomeThinks(a + b) <==> SomeThinks(a) || SomeThinks(b)
  {
    var all := a + b;
    if i :| 0 <= i < |a| && a[i].thought.Some? { assert all[i].thought.Some?; }
    if i :| 0 <= i < |b| && b[i].thought.Some? { assert all[|a| + i].thought.Some?; }
  }

  lemma {:induction false} FrameThinks(choices: seq<Choice>)
    ensures Thoughts(choices) != [] <==> SomeThinks(choices)
  {
    if choices == [] {
    } else {
      var n := |choices| - 1;
      FrameThinks(choices[..n]);
      SomeJoins(choices[..n], [choices[n]]);
      assert choices == choices[..n] + [choices[n]];
      assert SomeThinks([choices[n]]) <==> [choices[n]][0].thought.Some?;
    }
  }

  // --- the last finish and the last usage ---

  lemma {:induction false} FinishIsLast(choices: seq<Choice>)
    ensures LastFinish(choices, FinishOf(choices))
  {
    if choices == [] {
    } else {
      var n := |choices| - 1;
      var before := FinishOf(choices[..n]);
      FinishIsLast(choices[..n]);
      if choices[n].finish != "" {
        assert FinishesAt(choices, n, choices[n].finish);
      } else if before.Some? {
        var i :| FinishesAt(choices[..n], i, before.value);
        assert FinishesAt(choices, i, before.value);
      }
    }
  }

  lemma {:induction false} LastFinishJoins(a: seq<Choice>, b: seq<Choice>, before: Option<string>, next: Option<string>)
    requires LastFinish(a, before) && LastFinish(b, next)
    ensures LastFinish(a + b, if next.Some? then next else before)
  {
    var all := a + b;
    if next.Some? {
      var i :| FinishesAt(b, i, next.value);
      assert FinishesAt(all, |a| + i, next.value);
    } else if before.Some? {
      var i :| FinishesAt(a, i, before.value);
      assert forall j :: |a| <= j < |all| ==> all[j] == b[j - |a|];
      assert FinishesAt(all, i, before.value);
    }
  }

  /** What a state holds of the finish and the usage is the last of each to have arrived. */
  ghost predicate HoldsLast(lines: seq<Line>, n: nat, s: State)
    requires n <= |lines|
  {
    LastFinish(Choices(lines, n), s.finish) && LastUsage(lines, n, s.usage)
  }

  lemma {:induction false} UsageNext(lines: seq<Line>, k: nat, before: Option<int>, next: Option<int>)
    requires k < |lines| && LastUsage(lines, k, before)
    requires if HasUsage(lines[k]) then next == lines[k].body.frame.usage else next == before
    ensures LastUsage(lines, k + 1, next)
  {
    if HasUsage(lines[k]) {
      assert UsedAt(lines, k + 1, k, next.value);
    } else if before.Some? {
      var i :| UsedAt(lines, k, i, before.value);
      assert UsedAt(lines, k + 1, i, before.value);
    }
  }

  lemma {:induction false} LineHoldsLast(lines: seq<Line>, k: nat, s: State)
    requires k < |lines| && HoldsLast(lines, k, s)
    ensures lines[k].body.NotData? ==> HoldsLast(lines, k + 1, s)
    ensures lines[k].body.Data? && ReadFrame(s, lines[k].body.frame).Ok? ==>
      HoldsLast(lines, k + 1, ReadFrame(s, lines[k].body.frame).value)
  {
    var body := lines[k].body;
    if body.NotData? {
      assert Choices(lines, k + 1) == Choices(lines, k);
      UsageNext(lines, k, s.usage, s.usage);
    } else if body.Data? && ReadFrame(s, body.frame).Ok? {
      var next := ReadFrame(s, body.frame).value;
      FinishIsLast(body.frame.choices);
      LastFinishJoins(Choices(lines, k), body.frame.choices, s.finish, FinishOf(body.frame.choices));
      UsageNext(lines, k, s.usage, next.usage);
    }
  }

  /** Reading on ends holding the last of each. */
  lemma {:induction false} ReadOnHoldsLast(lines: seq<Line>, k: nat, s: State)
    requires k <= |lines| && HoldsLast(lines, k, s)
    ensures var (n, end) := ReadOn(lines, k, s); n <= |lines| && HoldsLast(lines, n, end)
    decreases |lines| - k
  {
    if k < |lines| && !lines[k].late {
      LineHoldsLast(lines, k, s);
      match lines[k].body
      case NotData => ReadOnHoldsLast(lines, k + 1, s);
      case Data(frame) => if ReadFrame(s, frame).Ok? { ReadOnHoldsLast(lines, k + 1, ReadFrame(s, frame).value); }
      case DoneMark =>
      case NotJson =>
    }
  }

  /** Whether or not the stream fails, the pieces yielded are the contents of the choices of the lines
      read, in order, and those are all the lines before the first that stops it. */
  lemma {:induction false} YieldsDeltasOfLinesRead(lines: seq<Line>)
    ensures var (n, end) := ReadOn(lines, 0, FRESH);
      && PassedTo(lines, n) && (n == |lines| || Stops(lines, n))
      && Join(end.content) == Text(Choices(lines, n)) && forall i :: 0 <= i < |end.content| ==> end.content[i] != ""
  {
    StreamReadsOn(lines);
    var (n, end) := ReadOn(lines, 0, FRESH);
    FrameText(Choices(lines, n));
    PiecesAreNotEmpty(Choices(lines, n));
  }

  lemma {:induction false} PiecesAreNotEmpty(choices: seq<Choice>)
    ensures forall i :: 0 <= i < |Pieces(choices)| ==> Pieces(choices)[i] != ""
  {
    if choices != [] { PiecesAreNotEmpty(choices[..|choices| - 1]); }
  }

  /** A stream yields a message exactly when its lines make a reply: up to the first `[DONE]` every
      line in time, every frame JSON and no error, and a usage frame, each after a finish frame. */
  lemma {:induction false} YieldsExactlyReplies(lines: seq<Line>)
    ensures Streamed(lines).Ok? <==> exists n :: Accepts(lines, n)
  {
    StreamReadsOn(lines);
    EndsWhereItStops(lines, ReadOn(lines, 0, FRESH).0);
  }

  /** What stops a stream there, with a finish or a usage held or not. */
  ghost predicate FailsAs(lines: seq<Line>, n: nat, finished: bool, used: bool, failure: Failure) {
    if n >= |lines| then failure == EndedEarly
    else if lines[n].late then failure == Deadline
    else match lines[n].body
      case NotData => false
      case DoneMark => if !finished then failure == NoFinish else !used && failure == NoUsage
      case NotJson => failure == BadJson
      case Data(ErrorFrame(overflow)) => failure == if overflow then Overflow else ServerError
      case Data(Chunk(usage, _)) => usage.Some? && !finished && failure == UsageBeforeFinish
  }

  lemma {:induction false} ConsumeFails(lines: seq<Line>, k: nat, s: State)
    requires k <= |lines|
    ensures var (n, end) := ReadOn(lines, k, s);
      Consume(lines, k, s).Fails? ==>
        FailsAs(lines, n, end.finish.Some?, end.usage.Some?, Consume(lines, k, s).failure)
    decreases |lines| - k
  {
    if k < |lines| && !lines[k].late {
      match lines[k].body
      case NotData => ConsumeFails(lines, k + 1, s);
      case Data(frame) => if ReadFrame(s, frame).Ok? { ConsumeFails(lines, k + 1, ReadFrame(s, frame).value); }
      case DoneMark =>
      case NotJson =>
    }
  }

  /** A stream that yields no message fails as the first line that stops it says. */
  lemma {:induction false} FailsAsItStops(lines: seq<Line>, n: nat)
    requires Streamed(lines).Fails? && PassedTo(lines, n) && (n == |lines| || Stops(lines, n))
    ensures FailsAs(lines, n, FinishBefore(lines, n), UsageBefore(lines, n), Streamed(lines).failure)
  {
    StreamReadsOn(lines);
    ConsumeFails(lines, 0, FRESH);
    var (m, end) := ReadOn(lines, 0, FRESH);
    assert m < n ==> !Stops(lines, m);
    assert n < m ==> !Stops(lines, n);
  }

  /** The message is the content of every choice up to `[DONE]`, in order; its reasoning every thought;
      and its finish and usage the last that arrived. */
  lemma {:induction false} MessageIsItsDeltas(lines: seq<Line>, n: int)
    requires Accepts(lines, n)
    ensures Streamed(lines).Ok?
    ensures var s := Streamed(lines).value;
      && Join(s.content) == Text(Choices(lines, n)) && Join(s.reasoning) == Reasoning(Choices(lines, n))
      && (s.sawReasoning <==> SomeThinks(Choices(lines, n)))
      && LastFinish(Choices(lines, n), s.finish) && LastUsage(lines, n, s.usage)
  {
    StreamReadsOn(lines);
    EndsWhereItStops(lines, ReadOn(lines, 0, FRESH).0);
    FrameText(Choices(lines, n));
    FrameThinks(Choices(lines, n));
    ReadOnHoldsLast(lines, 0, FRESH);
  }
}
