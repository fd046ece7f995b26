/** The conversation chain of langchain_app.py: `create_conversation_chain` binds a system
    prompt template to a message buffer, `chain_invoke` sends the formatted system prompt,
    the buffered history and the new input to the model and records the exchange, and
    `execute_sample_qna` runs a profile's example questions through one chain. */
module Conversation {
  import opened Wrappers
  import opened Profiles
  import opened Template

  /** The three message kinds of the prompt: system, human and AI. */
  datatype Role = System | Human | Ai

  /** One message of the prompt or of the buffered history. */
  datatype Turn = Turn(role: Role, text: string)

  /** The language model behind `llm.invoke(messages).content`: the reply text for a message
      list, or the error the call raises. */
  type Model = seq<Turn> -> Result<string, string>

  /** The dictionary handed to `chain_invoke`; it may also carry a `sample_qna` entry. */
  datatype ChainInput = ChainInput(input: string, sampleQna: Option<seq<QnA>>)

  /** The messages `prompt.format_messages(history=..., input=...)` builds for the template
      `[("system", system_prompt), MessagesPlaceholder("history"), ("human", "{input}")]`,
      once the system prompt has been formatted to `system`. */
  function PromptMessages(system: string, history: seq<Turn>, input: string): (msgs: seq<Turn>)
    ensures |msgs| == |history| + 2
    ensures msgs[0] == Turn(System, system)
    ensures msgs[1..|msgs| - 1] == history
    ensures msgs[|msgs| - 1] == Turn(Human, input)
  {
    [Turn(System, system)] + history + [Turn(Human, input)]
  }

  /** What one call of `chain_invoke` produces: its reply and the buffer afterwards. */
  datatype Exchange = Exchange(reply: Result<string, string>, history: seq<Turn>)

  /** One call of `chain_invoke` on a buffer holding `history`: formatting the system
      prompt may raise before the model is asked; otherwise the model sees the prompt
      messages. Only a call that returns records the input and then the reply. */
  function Step(systemPrompt: string, llm: Model, history: seq<Turn>, input: string): (e: Exchange)
    ensures Format(systemPrompt, input).Failure? ==> e.reply == Failure(Format(systemPrompt, input).error)
    ensures Format(systemPrompt, input).Success? ==>
      e.reply == llm(PromptMessages(Format(systemPrompt, input).value, history, input))
    ensures e.reply.Success? ==>
      && |e.history| == |history| + 2
      && e.history[..|history|] == history
      && e.history[|history|] == Turn(Human, input)
      && e.history[|history| + 1] == Turn(Ai, e.reply.value)
    ensures e.reply.Failure? ==> e.history == history
  {
    var system := Format(systemPrompt, input);
    var reply := if system.Failure? then Failure(system.error) else llm(PromptMessages(system.value, history, input));
    if reply.Success? then
      Exchange(reply, history + [Turn(Human, input), Turn(Ai, reply.value)])
    else
      Exchange(reply, history)
  }

  /** A system prompt without braces is sent as it is written. */
  lemma StepPlainPrompt(systemPrompt: string, llm: Model, history: seq<Turn>, input: string)
    requires '{' !in systemPrompt && '}' !in systemPrompt
    ensures Step(systemPrompt, llm, history, input).reply == llm(PromptMessages(systemPrompt, history, input))
  {
    FormatPlainText(systemPrompt, input);
  }

  /** A buffer of completed exchanges: human and AI messages alternate, human first. */
  ghost predicate Alternating(history: seq<Turn>)
  {
    && |history| % 2 == 0
    && forall i :: 0 <= i < |history| ==> history[i].role == if i % 2 == 0 then Human else Ai
  }

  /** A call of `chain_invoke` keeps the buffer alternating, whether it succeeds or raises. */
  lemma StepKeepsAlternating(systemPrompt: string, llm: Model, history: seq<Turn>, input: string)
    requires Alternating(history)
    ensures Alternating(Step(systemPrompt, llm, history, input).history)
  {
    var h := Step(systemPrompt, llm, history, input).history;
    forall i | 0 <= i < |h|
      ensures h[i].role == if i % 2 == 0 then Human else Ai
    {
      if i < |history| {
        assert h[i] == h[..|history|][i];
      }
    }
  }

  /** The chain returned by `create_conversation_chain`: the system prompt template and
      model it closes over, and the message buffer of its `ConversationBufferMemory`. */
  class Session {
    const systemPrompt: string
    const llm: Model
    var history: seq<Turn>

    /** A chain with an empty buffer. */
    constructor (llm: Model, systemPrompt: string)
      ensures this.llm == llm && this.systemPrompt == systemPrompt
      ensures history == []
    {
      this.llm := llm;
      this.systemPrompt := systemPrompt;
      history := [];
    }

    /** `chain["invoke"](input_dict)`: only the `input` entry is read. */
    method Invoke(req: ChainInput) returns (r: Result<string, string>)
      modifies this
      ensures Exchange(r, history) == Step(systemPrompt, llm, old(history), req.input)
      ensures Alternating(old(history)) ==> Alternating(history)
    {
      ghost var before := history;
      var system := Format(systemPrompt, req.input);
      if system.Failure? {
        return Failure(system.error);
      }
      var messages := PromptMessages(system.value, history, req.input);
      r := llm(messages);
      if r.Success? {
        history := history + [Turn(Human, req.input), Turn(Ai, r.value)];
      }
      if Alternating(before) {
        StepKeepsAlternating(systemPrompt, llm, before, req.input);
      }
    }
  }

  /** `create_conversation_chain(llm, system_prompt)`: building the prompt template parses
      the system prompt, and a prompt that does not parse, or that has a field named
      `stop`, raises; otherwise a new chain
      with an empty buffer. */
  method CreateConversationChain(llm: Model, systemPrompt: string) returns (r: Result<Session, string>)
    ensures Build(systemPrompt).Failure? ==> r == Failure(Build(systemPrompt).error)
    ensures Build(systemPrompt).Success? ==>
      && r.Success? && fresh(r.value)
      && r.value.llm == llm && r.value.systemPrompt == systemPrompt && r.value.history == []
  {
    var template := Build(systemPrompt);
    if template.Failure? {
      return Failure(template.error);
    }
    var chain := new Session(llm, systemPrompt);
    r := Success(chain);
  }

  /** One record of `execute_sample_qna`: `{"question", "expected", "generated"}`. */
  datatype QnAResult = QnAResult(question: string, expected: string, generated: string)

  /** Where a run of example questions ends: the records, or the error that stopped it,
      and the buffer afterwards. */
  datatype RunState = RunState(responses: Result<seq<QnAResult>, string>, history: seq<Turn>)

  /** The pairs of `qs` sent in order through one chain whose buffer starts as `history`;
      the first error stops the run and discards the records gathered so far. */
  function SampleRun(systemPrompt: string, llm: Model, history: seq<Turn>, qs: seq<QnA>): (run: RunState)
    ensures history <= run.history
    decreases |qs|
  {
    if qs == [] then RunState(Success([]), history)
    else
      var prev := SampleRun(systemPrompt, llm, history, qs[..|qs| - 1]);
      if prev.responses.Failure? then prev
      else
        var qa := qs[|qs| - 1];
        var e := Step(systemPrompt, llm, prev.history, qa.question);
        match e.reply
        case Failure(err) => RunState(Failure(err), e.history)
        case Success(text) =>
          RunState(Success(prev.responses.value + [QnAResult(qa.question, qa.answer, text)]), e.history)
  }

  /** Once a prefix of the pairs has stopped with an error, the whole run ends there. */
  lemma {:induction false} SampleRunFailureSticks(systemPrompt: string, llm: Model, history: seq<Turn>,
                                                  qs: seq<QnA>, k: nat)
    requires k <= |qs|
    requires SampleRun(systemPrompt, llm, history, qs[..k]).responses.Failure?
    ensures SampleRun(systemPrompt, llm, history, qs) == SampleRun(systemPrompt, llm, history, qs[..k])
    decreases |qs| - k
  {
    if k == |qs| {
      assert qs[..k] == qs;
    } else {
      var front := qs[..|qs| - 1];
      assert front[..k] == qs[..k];
      SampleRunFailureSticks(systemPrompt, llm, history, front, k);
    }
  }

  /** A run that completes returns one record per pair, in order, with the question and
      the expected answer copied from the pair. */
  lemma {:induction false} SampleRunRecords(systemPrompt: string, llm: Model, history: seq<Turn>, qs: seq<QnA>)
    requires SampleRun(systemPrompt, llm, history, qs).responses.Success?
    ensures var rs := SampleRun(systemPrompt, llm, history, qs).responses.value;
      && |rs| == |qs|
      && forall j :: 0 <= j < |qs| ==> rs[j].question == qs[j].question && rs[j].expected == qs[j].answer
    decreases |qs|
  {
    if qs != [] {
      var front := qs[..|qs| - 1];
      SampleRunRecords(systemPrompt, llm, history, front);
      assert SampleRun(systemPrompt, llm, history, front).responses.Success?;
      var rs := SampleRun(systemPrompt, llm, history, qs).responses.value;
      var prev := SampleRun(systemPrompt, llm, history, front).responses.value;
      assert rs[..|qs| - 1] == prev;
      forall j | 0 <= j < |qs| - 1
        ensures rs[j].question == qs[j].question && rs[j].expected == qs[j].answer
      {
        assert rs[j] == prev[j] && qs[j] == front[j];
      }
    }
  }

  /** The buffer entries a completed run leaves behind: for each record in order, its
      question as a human message and its generated reply as an AI message. */
  function Exchanges(rs: seq<QnAResult>): (t: seq<Turn>)
    ensures |t| == 2 * |rs|
  {
    if rs == [] then []
    else Exchanges(rs[..|rs| - 1]) + [Turn(Human, rs[|rs| - 1].question), Turn(Ai, rs[|rs| - 1].generated)]
  }

  /** Entry by entry: position 2j holds the j-th question, position 2j+1 its reply. */
  lemma {:induction false} ExchangesAt(rs: seq<QnAResult>, j: nat)
    requires j < |rs|
    ensures Exchanges(rs)[2 * j] == Turn(Human, rs[j].question)
    ensures Exchanges(rs)[2 * j + 1] == Turn(Ai, rs[j].generated)
    decreases |rs|
  {
    if j < |rs| - 1 {
      var front := rs[..|rs| - 1];
      ExchangesAt(front, j);
      assert Exchanges(rs)[2 * j] == Exchanges(front)[2 * j];
      assert Exchanges(rs)[2 * j + 1] == Exchanges(front)[2 * j + 1];
    }
  }

  /** The model, asked `input` after `history` under the system prompt formatted for
      `input`, answered `reply`. */
  ghost predicate Asked(systemPrompt: string, llm: Model, history: seq<Turn>, input: string, reply: string)
  {
    && Format(systemPrompt, input).Success?
    && llm(PromptMessages(Format(systemPrompt, input).value, history, input)) == Success(reply)
  }

  /** `Asked` for the prompt and model of one chain, as a relation on buffer, input and reply. */
  ghost function AskedOf(systemPrompt: string, llm: Model): (seq<Turn>, string, string) -> bool
  {
    (history: seq<Turn>, input: string, reply: string) => Asked(systemPrompt, llm, history, input, reply)
  }

  /** Question j of `qs` was asked (in the sense of `asked`) after the starting buffer and
      the exchanges of the records before j, and got the text of record j as its reply. */
  ghost predicate PromptsSeen(asked: (seq<Turn>, string, string) -> bool, history: seq<Turn>,
                              qs: seq<QnA>, rs: seq<QnAResult>)
    requires |rs| == |qs|
  {
    forall j :: 0 <= j < |qs| ==> asked(history + Exchanges(rs[..j]), qs[j].question, rs[j].generated)
  }

  /** A run that completes leaves the buffer extended by the exchanges of its records. */
  lemma {:induction false} SampleRunBuffer(systemPrompt: string, llm: Model, history: seq<Turn>, qs: seq<QnA>)
    requires SampleRun(systemPrompt, llm, history, qs).responses.Success?
    ensures var run := SampleRun(systemPrompt, llm, history, qs);
      && |run.responses.value| == |qs|
      && run.history == history + Exchanges(run.responses.value)
    decreases |qs|
  {
    SampleRunRecords(systemPrompt, llm, history, qs);
    if qs == [] {
      assert history + Exchanges([]) == history;
    } else {
      var front := qs[..|qs| - 1];
      var prev := SampleRun(systemPrompt, llm, history, front);
      var run := SampleRun(systemPrompt, llm, history, qs);
      var rs := run.responses.value;
      SampleRunLastBuffer(systemPrompt, llm, history, qs);
      SampleRunBuffer(systemPrompt, llm, history, front);
      var pair := [Turn(Human, rs[|rs| - 1].question), Turn(Ai, rs[|rs| - 1].generated)];
      assert rs[..|rs| - 1] == prev.responses.value;
      assert Exchanges(rs) == Exchanges(prev.responses.value) + pair;
      assert prev.history + pair == history + (Exchanges(prev.responses.value) + pair);
    }
  }

  /** The last pair of a completed run of a non-empty list adds one record to the records
      of the run of the other pairs, and its exchange to the buffer that run left. */
  lemma SampleRunLastBuffer(systemPrompt: string, llm: Model, history: seq<Turn>, qs: seq<QnA>)
    requires qs != []
    requires SampleRun(systemPrompt, llm, history, qs).responses.Success?
    ensures var prev := SampleRun(systemPrompt, llm, history, qs[..|qs| - 1]);
      var run := SampleRun(systemPrompt, llm, history, qs);
      var rs := run.responses.value;
      && prev.responses.Success?
      && rs != []
      && rs == prev.responses.value + [rs[|rs| - 1]]
      && run.history == prev.history + [Turn(Human, rs[|rs| - 1].question), Turn(Ai, rs[|rs| - 1].generated)]
  {
    SampleRunLast(systemPrompt, llm, history, qs);
  }

  /** A run that completes leaves the buffer extended by the exchanges of its records, and
      each question was sent with the starting buffer and every earlier exchange of the run
      in its prompt. */
  lemma {:induction false} SampleRunHistory(systemPrompt: string, llm: Model, history: seq<Turn>, qs: seq<QnA>)
    requires SampleRun(systemPrompt, llm, history, qs).responses.Success?
    ensures var run := SampleRun(systemPrompt, llm, history, qs);
      var rs := run.responses.value;
      && |rs| == |qs|
      && run.history == history + Exchanges(rs)
      && PromptsSeen(AskedOf(systemPrompt, llm), history, qs, rs)
    decreases |qs|
  {
    SampleRunBuffer(systemPrompt, llm, history, qs);
    if qs != [] {
      var front := qs[..|qs| - 1];
      var prev := SampleRun(systemPrompt, llm, history, front);
      var rs := SampleRun(systemPrompt, llm, history, qs).responses.value;
      SampleRunLastAsked(systemPrompt, llm, history, qs);
      SampleRunHistory(systemPrompt, llm, history, front);
      assert qs[..|qs| - 1] == front;
      PromptsSeenExtend(AskedOf(systemPrompt, llm), history, qs, prev.responses.value, rs[|rs| - 1]);
    }
  }

  /** The last pair of a completed run of a non-empty list was asked after the buffer the
      run of the other pairs left, and its record closes the records of that run. */
  lemma SampleRunLastAsked(systemPrompt: string, llm: Model, history: seq<Turn>, qs: seq<QnA>)
    requires qs != []
    requires SampleRun(systemPrompt, llm, history, qs).responses.Success?
    ensures var prev := SampleRun(systemPrompt, llm, history, qs[..|qs| - 1]);
      var rs := SampleRun(systemPrompt, llm, history, qs).responses.value;
      && prev.responses.Success?
      && rs != []
      && rs == prev.responses.value + [rs[|rs| - 1]]
      && AskedOf(systemPrompt, llm)(prev.history, qs[|qs| - 1].question, rs[|rs| - 1].generated)
  {
    var prev := SampleRun(systemPrompt, llm, history, qs[..|qs| - 1]);
    SampleRunLast(systemPrompt, llm, history, qs);
    StepAsked(systemPrompt, llm, prev.history, qs[|qs| - 1].question);
  }

  /** A completed run of a non-empty list is the completed run of all pairs but the last,
      followed by one successful call on the last question. */
  lemma SampleRunLast(systemPrompt: string, llm: Model, history: seq<Turn>, qs: seq<QnA>)
    requires qs != []
    requires SampleRun(systemPrompt, llm, history, qs).responses.Success?
    ensures var prev := SampleRun(systemPrompt, llm, history, qs[..|qs| - 1]);
      var qa := qs[|qs| - 1];
      var e := Step(systemPrompt, llm, prev.history, qa.question);
      && prev.responses.Success?
      && e.reply.Success?
      && SampleRun(systemPrompt, llm, history, qs)
         == RunState(Success(prev.responses.value + [QnAResult(qa.question, qa.answer, e.reply.value)]), e.history)
  {
  }

  /** A call that returns got its reply from the model, asked under the formatted prompt. */
  lemma StepAsked(systemPrompt: string, llm: Model, history: seq<Turn>, input: string)
    requires Step(systemPrompt, llm, history, input).reply.Success?
    ensures Asked(systemPrompt, llm, history, input, Step(systemPrompt, llm, history, input).reply.value)
  {
  }

  /** Appending one record whose question was sent after all earlier exchanges keeps every
      prompt seen. */
  lemma {:induction false} PromptsSeenExtend(asked: (seq<Turn>, string, string) -> bool, history: seq<Turn>,
                                             qs: seq<QnA>, rs: seq<QnAResult>, last: QnAResult)
    requires |rs| + 1 == |qs|
    requires PromptsSeen(asked, history, qs[..|rs|], rs)
    requires asked(history + Exchanges(rs), qs[|rs|].question, last.generated)
    ensures PromptsSeen(asked, history, qs, rs + [last])
  {
    var all := rs + [last];
    forall j | 0 <= j < |qs|
      ensures asked(history + Exchanges(all[..j]), qs[j].question, all[j].generated)
    {
      if j == |rs| {
        assert all[..j] == rs && all[j] == last;
      } else {
        assert all[..j] == rs[..j] && all[j] == rs[j] && qs[j] == qs[..|rs|][j];
      }
    }
  }

  /** `execute_sample_qna(chain, sample_qna)`: each question goes through `chain` in order,
      so the buffer accumulates; one record is kept per pair. An error raised by the model
      ends the loop. */
  method ExecuteSampleQna(chain: Session, sampleQna: seq<QnA>) returns (r: Result<seq<QnAResult>, string>)
    modifies chain
    ensures RunState(r, chain.history) == SampleRun(chain.systemPrompt, chain.llm, old(chain.history), sampleQna)
  {
    var responses: seq<QnAResult> := [];
    var i := 0;
    while i < |sampleQna|
      invariant 0 <= i <= |sampleQna|
      invariant SampleRun(chain.systemPrompt, chain.llm, old(chain.history), sampleQna[..i])
                == RunState(Success(responses), chain.history)
    {
      var qa := sampleQna[i];
      var response := chain.Invoke(ChainInput(qa.question, None));
      assert sampleQna[..i + 1][..i] == sampleQna[..i];
      if response.Failure? {
        SampleRunFailureSticks(chain.systemPrompt, chain.llm, old(chain.history), sampleQna, i + 1);
        r := Failure(response.error);
        return;
      }
      responses := responses + [QnAResult(qa.question, qa.answer, response.value)];
      i := i + 1;
    }
    assert sampleQna[..i] == sampleQna;
    r := Success(responses);
  }
}
