/** The HTTP service of flask_server.py: a process-wide registry `profile_chains` from
    character name to conversation chain, filled lazily from the profiles file, and the
    decisions of the /characters, /chat/<name> and /reset/<name> routes. */
module Server {
  import opened Wrappers
  import opened Profiles
  import opened Conversation
  import opened Template

  /** The JSON body of a chat request: absent or null, or a JSON object. */
  type RequestBody = Option<map<string, string>>

  /** What the chat route answers, with its HTTP status: a reply (200), a missing message
      (400), an unknown character (404), or an exception escaping the handler (500). */
  datatype ChatOutcome =
    | Reply(character: string, message: string, response: string)
    | BadRequest(error: string)
    | NotFound(error: string)
    | ServerError(cause: string)

  /** What the reset route answers: the confirmation (200) or an unknown character (404). */
  datatype ResetOutcome = ResetDone(message: string) | ResetNotFound(error: string)

  const MessageRequired := "Message is required"

  /** The text the raised exception carries when the handler subscripts a missing profile. */
  const NoProfile := "'NoneType' object is not subscriptable"

  function CharacterNotFound(name: string): string
  {
    "Character '" + name + "' not found"
  }

  function ConversationReset(name: string): string
  {
    "Conversation reset for character '" + name + "'"
  }

  /** The HTTP status of a chat outcome. */
  function ChatStatus(o: ChatOutcome): int
  {
    match o
    case Reply(_, _, _) => 200
    case BadRequest(_) => 400
    case NotFound(_) => 404
    case ServerError(_) => 500
  }

  /** What a registered chain holds, as seen from outside: its prompt and its buffer. */
  datatype SessionView = SessionView(systemPrompt: string, history: seq<Turn>)

  /** The answer of the chat route and the registry afterwards. */
  datatype ChatStep = ChatStep(outcome: ChatOutcome, sessions: map<string, SessionView>)

  /** The answer of the chat route once it holds a chain, and that chain afterwards. */
  datatype Answered = Answered(outcome: ChatOutcome, session: SessionView)

  /** The tail of the chat route, on a chain that looks like `s`: re-read the profile (a
      missing one makes the handler raise), invoke the chain with the message, and echo the
      character and the message beside the reply. Only a reply changes the chain, and only
      its buffer, by the exchange the model was asked for. */
  function Answer(s: SessionView, profiles: seq<Profile>, llm: Model, name: string, message: string): (a: Answered)
    ensures a.outcome.Reply? || a.outcome.ServerError?
    ensures FindByName(profiles, name).None? ==> a == Answered(ServerError(NoProfile), s)
    ensures a.outcome.ServerError? ==> a.session == s
    ensures a.outcome.Reply? ==>
      && a.outcome.character == name && a.outcome.message == message
      && Format(s.systemPrompt, message).Success?
      && llm(PromptMessages(Format(s.systemPrompt, message).value, s.history, message)) == Success(a.outcome.response)
      && a.session == SessionView(s.systemPrompt, s.history + [Turn(Human, message), Turn(Ai, a.outcome.response)])
  {
    if FindByName(profiles, name).None? then Answered(ServerError(NoProfile), s)
    else
      var e := Step(s.systemPrompt, llm, s.history, message);
      match e.reply
      case Failure(err) => Answered(ServerError(err), s)
      case Success(text) => Answered(Reply(name, message, text), SessionView(s.systemPrompt, e.history))
  }

  /** The chat route on a registry whose chains look like `sessions`, with `profiles` in the
      profiles file: validate the body, find the registered chain or create one from the
      first matching profile (building its prompt may raise, and then nothing is
      registered), then answer with it. No other entry of the registry changes, and no
      name other than this one is added. */
  function Chat(sessions: map<string, SessionView>, profiles: seq<Profile>, llm: Model,
                name: string, data: RequestBody): (c: ChatStep)
    ensures forall n :: n in sessions && n != name ==> n in c.sessions && c.sessions[n] == sessions[n]
    ensures forall n :: n in c.sessions ==> n in sessions || n == name
  {
    if data.None? || "message" !in data.value then ChatStep(BadRequest(MessageRequired), sessions)
    else if name !in sessions && FindByName(profiles, name).None? then
      ChatStep(NotFound(CharacterNotFound(name)), sessions)
    else if name !in sessions && Build(FindByName(profiles, name).value.systemPrompt).Failure? then
      ChatStep(ServerError(Build(FindByName(profiles, name).value.systemPrompt).error), sessions)
    else
      var s := if name in sessions then sessions[name]
               else SessionView(FindByName(profiles, name).value.systemPrompt, []);
      var a := Answer(s, profiles, llm, name, data.value["message"]);
      ChatStep(a.outcome, sessions[name := a.session])
  }

  /** A request body that carries a message. */
  predicate HasMessage(data: RequestBody)
  {
    data.Some? && "message" in data.value
  }

  /** Writing an entry twice leaves the second value. */
  lemma OverwriteEntry(m: map<string, SessionView>, k: string, v: SessionView, v': SessionView)
    ensures m[k := v][k := v'] == m[k := v']
  {
    assert m[k := v][k := v'].Keys == m[k := v'].Keys;
  }

  /** The chat route on a valid request whose chain (registered, or new from the first
      matching profile whose prompt builds) looks like `s`: the registry entry becomes
      what answering leaves. */
  lemma ChatWithChain(sessions: map<string, SessionView>, profiles: seq<Profile>, llm: Model,
                      name: string, data: RequestBody, s: SessionView)
    requires HasMessage(data)
    requires name in sessions ==> sessions[name] == s
    requires name !in sessions ==>
      && FindByName(profiles, name).Some?
      && Build(FindByName(profiles, name).value.systemPrompt).Success?
      && s == SessionView(FindByName(profiles, name).value.systemPrompt, [])
    ensures var a := Answer(s, profiles, llm, name, data.value["message"]);
      Chat(sessions, profiles, llm, name, data) == ChatStep(a.outcome, sessions[name := a.session])
  {
  }

  /** A chat request without a body or without a "message" entry is refused with 400,
      before the registry is looked at or filled. */
  lemma ChatRequiresMessage(sessions: map<string, SessionView>, profiles: seq<Profile>, llm: Model,
                            name: string, data: RequestBody)
    ensures ChatStatus(Chat(sessions, profiles, llm, name, data).outcome) == 400 <==> !HasMessage(data)
    ensures !HasMessage(data) ==>
      Chat(sessions, profiles, llm, name, data) == ChatStep(BadRequest(MessageRequired), sessions)
  {
  }

  /** A chat with a message answers 404 exactly when the name is neither registered nor
      the name of a stored profile, and then leaves the registry as it was. */
  lemma ChatUnknownCharacter(sessions: map<string, SessionView>, profiles: seq<Profile>, llm: Model,
                             name: string, data: RequestBody)
    requires HasMessage(data)
    ensures ChatStatus(Chat(sessions, profiles, llm, name, data).outcome) == 404 <==>
      name !in sessions && FindByName(profiles, name).None?
    ensures name !in sessions && FindByName(profiles, name).None? ==>
      Chat(sessions, profiles, llm, name, data) == ChatStep(NotFound(CharacterNotFound(name)), sessions)
  {
  }

  /** A chat with a message for an unregistered character with a stored profile registers
      a chain exactly when that profile's system prompt builds as a template; when it does
      not, building the chain raises, the route answers 500 and the registry is as it was. */
  lemma ChatTemplateError(sessions: map<string, SessionView>, profiles: seq<Profile>, llm: Model,
                          name: string, data: RequestBody, p: Profile)
    requires HasMessage(data)
    requires name !in sessions && FindByName(profiles, name) == Some(p)
    ensures name in Chat(sessions, profiles, llm, name, data).sessions <==> Build(p.systemPrompt).Success?
    ensures Build(p.systemPrompt).Failure? ==>
      Chat(sessions, profiles, llm, name, data) == ChatStep(ServerError(Build(p.systemPrompt).error), sessions)
  {
  }

  /** A chat that gets past validation and lookup leaves the name registered (unless a new
      chain's prompt did not build), with the registered chain's prompt or the first
      matching profile's, and every other entry of the registry exactly as it was. */
  lemma ChatTouchesOnlyItsCharacter(sessions: map<string, SessionView>, profiles: seq<Profile>, llm: Model,
                                    name: string, data: RequestBody)
    requires var c := Chat(sessions, profiles, llm, name, data);
      !c.outcome.BadRequest? && !c.outcome.NotFound?
    ensures var c := Chat(sessions, profiles, llm, name, data);
      && c.sessions.Keys == sessions.Keys +
           (if name in sessions || Build(FindByName(profiles, name).value.systemPrompt).Success? then {name} else {})
      && (forall n :: n in sessions && n != name ==> c.sessions[n] == sessions[n])
      && (name in c.sessions ==>
            c.sessions[name].systemPrompt ==
              if name in sessions then sessions[name].systemPrompt
              else FindByName(profiles, name).value.systemPrompt)
  {
  }

  /** A successful chat echoes the character and the message beside the model's reply to
      the chain's formatted prompt, buffered history and message, and that chain's buffer
      grows by the message and the reply. */
  lemma ChatReplies(sessions: map<string, SessionView>, profiles: seq<Profile>, llm: Model,
                    name: string, data: RequestBody)
    requires HasMessage(data)
    requires Chat(sessions, profiles, llm, name, data).outcome.Reply?
    ensures var c := Chat(sessions, profiles, llm, name, data);
      var message := data.value["message"];
      var prior := if name in sessions then sessions[name].history else [];
      var sp := c.sessions[name].systemPrompt;
      && c.outcome.character == name
      && c.outcome.message == message
      && Format(sp, message).Success?
      && llm(PromptMessages(Format(sp, message).value, prior, message)) == Success(c.outcome.response)
      && c.sessions[name].history == prior + [Turn(Human, message), Turn(Ai, c.outcome.response)]
  {
  }

  /** A chat that ends in a server error leaves the chain's buffer as it was (no chain
      at all, when creating it raised; an empty one for a chain created by this request). */
  lemma ChatErrorKeepsHistory(sessions: map<string, SessionView>, profiles: seq<Profile>, llm: Model,
                              name: string, data: RequestBody)
    requires Chat(sessions, profiles, llm, name, data).outcome.ServerError?
    ensures var c := Chat(sessions, profiles, llm, name, data);
      && (name !in c.sessions ==> c.sessions == sessions)
      && (name in c.sessions ==> c.sessions[name].history == if name in sessions then sessions[name].history else [])
  {
  }

  /** After a reset, the next chat with that character starts a conversation from the
      current profile: the model sees only the current system prompt, formatted with the
      message, and the message, and the new buffer holds just this exchange. */
  lemma ChatAfterReset(sessions: map<string, SessionView>, profiles: seq<Profile>, llm: Model,
                       name: string, data: RequestBody, p: Profile)
    requires HasMessage(data)
    requires FindByName(profiles, name) == Some(p)
    requires Format(p.systemPrompt, data.value["message"]).Success?
    requires llm([Turn(System, Format(p.systemPrompt, data.value["message"]).value),
                  Turn(Human, data.value["message"])]).Success?
    ensures var c := Chat(sessions - {name}, profiles, llm, name, data);
      var message := data.value["message"];
      var prompt := [Turn(System, Format(p.systemPrompt, message).value), Turn(Human, message)];
      && c.outcome == Reply(name, message, llm(prompt).value)
      && c.sessions[name] == SessionView(p.systemPrompt, [Turn(Human, message), Turn(Ai, c.outcome.response)])
  {
    var message := data.value["message"];
    FormatBuilds(p.systemPrompt, message);
    var system := Format(p.systemPrompt, message).value;
    assert PromptMessages(system, [], message) == [Turn(System, system), Turn(Human, message)];
  }

  /** Two chats in a row with one character: the second prompt carries the first exchange,
      whatever the profiles file says by then. */
  lemma ChatRemembers(sessions: map<string, SessionView>, profiles: seq<Profile>, profiles': seq<Profile>,
                      llm: Model, name: string, d1: RequestBody, d2: RequestBody)
    requires HasMessage(d1) && HasMessage(d2)
    requires Chat(sessions, profiles, llm, name, d1).outcome.Reply?
    requires FindByName(profiles', name).Some?
    ensures var c1 := Chat(sessions, profiles, llm, name, d1);
      var c2 := Chat(c1.sessions, profiles', llm, name, d2);
      var m1 := d1.value["message"];
      var m2 := d2.value["message"];
      var prior := if name in sessions then sessions[name].history else [];
      var sp := c1.sessions[name].systemPrompt;
      && c2.outcome.Reply? ==
           (&& Format(sp, m2).Success?
            && llm(PromptMessages(Format(sp, m2).value, prior + [Turn(Human, m1), Turn(Ai, c1.outcome.response)], m2)).Success?)
      && c2.sessions[name].systemPrompt == sp
  {
  }

  /** The Flask application's globals: the model, the profiles file and `profile_chains`. */
  class CharacterServer {
    const llm: Model
    const profilesFile: ProfileFile
    var profileChains: map<string, Session>

    /** Every registered chain uses the application's model, and no chain is registered
        under two names. */
    ghost predicate Valid()
      reads this
    {
      && (forall n :: n in profileChains ==> profileChains[n].llm == llm)
      && (forall a, b :: a in profileChains && b in profileChains && a != b ==> profileChains[a] != profileChains[b])
    }

    /** The registry seen through its chains' prompts and buffers. */
    ghost function View(): map<string, SessionView>
      reads this, profileChains.Values
    {
      map n | n in profileChains :: SessionView(profileChains[n].systemPrompt, profileChains[n].history)
    }

    /** Application start-up: an empty registry. */
    constructor (llm: Model, profilesFile: ProfileFile)
      ensures this.llm == llm && this.profilesFile == profilesFile
      ensures profileChains == map[]
      ensures Valid()
    {
      this.llm := llm;
      this.profilesFile := profilesFile;
      profileChains := map[];
    }

    /** `get_chain_for_profile`: a registered chain is returned as it is; otherwise the
        first profile with that name is loaded and a fresh chain with its prompt and an
        empty buffer is registered, or null comes back when there is none. Creating the
        chain raises, and registers nothing, when the profile's prompt does not build. */
    method GetChainForProfile(profileName: string) returns (r: Result<Session?, string>)
      requires Valid()
      modifies this
      ensures Valid()
      ensures profileName in old(profileChains) ==>
        r == Success(old(profileChains)[profileName]) && profileChains == old(profileChains)
      ensures profileName !in old(profileChains) && FindByName(LoadedProfiles(profilesFile.contents), profileName).None? ==>
        r == Success(null) && profileChains == old(profileChains)
      ensures profileName !in old(profileChains) && FindByName(LoadedProfiles(profilesFile.contents), profileName).Some? ==>
        var p := FindByName(LoadedProfiles(profilesFile.contents), profileName).value;
        && (Build(p.systemPrompt).Failure? ==>
              r == Failure(Build(p.systemPrompt).error) && profileChains == old(profileChains))
        && (Build(p.systemPrompt).Success? ==>
              && r.Success? && r.value != null && fresh(r.value)
              && r.value.llm == llm && r.value.systemPrompt == p.systemPrompt && r.value.history == []
              && profileChains == old(profileChains)[profileName := r.value])
      ensures r.Failure? || r.value == null ==> View() == old(View())
      ensures r.Success? && r.value != null ==>
        View() == old(View())[profileName := SessionView(r.value.systemPrompt, r.value.history)]
    {
      ghost var before := View();
      if profileName !in profileChains {
        var profiles := profilesFile.Load();
        var profile := FindByName(profiles, profileName);
        if profile.None? {
          return Success(null);
        }
        var created := CreateConversationChain(llm, profile.value.systemPrompt);
        if created.Failure? {
          return Failure(created.error);
        }
        profileChains := profileChains[profileName := created.value];
        assert View() == before[profileName := SessionView(created.value.systemPrompt, [])];
      }
      r := Success(profileChains[profileName]);
    }

    /** `list_characters`: the names in the profiles file, in stored order. */
    method ListCharacters() returns (names: seq<string>)
      ensures var ps := LoadedProfiles(profilesFile.contents);
        |names| == |ps| && forall i :: 0 <= i < |ps| ==> names[i] == ps[i].name
    {
      var profiles := profilesFile.Load();
      names := Names(profiles);
    }

    /** `chat_with_character`: the answer and the new registry are those of `Chat`. */
    method ChatWithCharacter(characterName: string, data: RequestBody) returns (out: ChatOutcome)
      requires Valid()
      modifies this, profileChains.Values
      ensures Valid()
      ensures ChatStep(out, View()) ==
        Chat(old(View()), LoadedProfiles(profilesFile.contents), llm, characterName, data)
    {
      ghost var ps := LoadedProfiles(profilesFile.contents);
      ghost var before := View();
      if data.None? || "message" !in data.value {
        ChatRequiresMessage(before, ps, llm, characterName, data);
        return BadRequest(MessageRequired);
      }
      var got := GetChainForProfile(characterName);
      if got.Failure? {
        ChatTemplateError(before, ps, llm, characterName, data, FindByName(ps, characterName).value);
        return ServerError(got.error);
      }
      var chain := got.value;
      if chain == null {
        ChatUnknownCharacter(before, ps, llm, characterName, data);
        return NotFound(CharacterNotFound(characterName));
      }
      ghost var s := SessionView(chain.systemPrompt, chain.history);
      assert characterName in before ==> before[characterName] == s;
      out := ChatRegistered(chain, characterName, data, before);
    }

    /** The rest of `chat_with_character` once the registry holds `chain` under
        `characterName`, where `before` is the registry's view when the request arrived:
        the answer and the registry's new view are those of `Chat`. */
    method ChatRegistered(chain: Session, characterName: string, data: RequestBody,
                          ghost before: map<string, SessionView>) returns (out: ChatOutcome)
      requires Valid() && HasMessage(data)
      requires characterName in profileChains && profileChains[characterName] == chain
      requires View() == before[characterName := SessionView(chain.systemPrompt, chain.history)]
      requires characterName in before ==> before[characterName] == SessionView(chain.systemPrompt, chain.history)
      requires characterName !in before ==>
        var found := FindByName(LoadedProfiles(profilesFile.contents), characterName);
        && found.Some? && Build(found.value.systemPrompt).Success?
        && chain.systemPrompt == found.value.systemPrompt && chain.history == []
      modifies chain
      ensures Valid()
      ensures ChatStep(out, View()) == Chat(before, LoadedProfiles(profilesFile.contents), llm, characterName, data)
    {
      ghost var ps := LoadedProfiles(profilesFile.contents);
      ghost var s := SessionView(chain.systemPrompt, chain.history);
      label registered:
      out := Respond(chain, characterName, data.value["message"]);
      ViewAfterRespond@registered(characterName);
      ghost var a := Answer(s, ps, llm, characterName, data.value["message"]);
      ChatWithChain(before, ps, llm, characterName, data, s);
      OverwriteEntry(before, characterName, s, a.session);
    }

    /** Answering through the chain registered under `name` changes that entry of the
        registry's view and no other. */
    twostate lemma ViewAfterRespond(name: string)
      requires old(Valid()) && name in old(profileChains)
      requires profileChains == old(profileChains)
      requires forall n :: n in profileChains && n != name ==> unchanged(profileChains[n])
      ensures View() == old(View())[name := SessionView(profileChains[name].systemPrompt, profileChains[name].history)]
    {
    }

    /** The tail of `chat_with_character` (the re-read of the profile, the call of the chain
        and the reply) on the chain the registry handed out. */
    method Respond(chain: Session, characterName: string, message: string) returns (out: ChatOutcome)
      requires chain.llm == llm
      modifies chain
      ensures Answered(out, SessionView(chain.systemPrompt, chain.history)) ==
        Answer(SessionView(chain.systemPrompt, old(chain.history)), LoadedProfiles(profilesFile.contents),
               llm, characterName, message)
    {
      var profiles := profilesFile.Load();
      var profile := FindByName(profiles, characterName);
      if profile.None? {
        return ServerError(NoProfile);
      }
      var response := chain.Invoke(ChainInput(message, Some(profile.value.sampleQna)));
      match response
      case Failure(err) =>
        out := ServerError(err);
      case Success(text) =>
        out := Reply(characterName, message, text);
    }

    /** `reset_character`: a registered chain is dropped, and only that one; an
        unregistered name is answered with not-found and changes nothing. */
    method ResetCharacter(characterName: string) returns (out: ResetOutcome)
      requires Valid()
      modifies this
      ensures Valid()
      ensures characterName in old(profileChains) ==>
        out == ResetDone(ConversationReset(characterName)) && profileChains == old(profileChains) - {characterName}
      ensures characterName !in old(profileChains) ==>
        out == ResetNotFound(CharacterNotFound(characterName)) && profileChains == old(profileChains)
    {
      if characterName in profileChains {
        profileChains := profileChains - {characterName};
        return ResetDone(ConversationReset(characterName));
      }
      return ResetNotFound(CharacterNotFound(characterName));
    }
  }
}
