/** The chat cache and the continuity check (sgpt/handlers/chat_handler.py).

    `ChatSession` is a bounded, persistent history per chat id: the storage
    directory is the map `store` from id to what the file of that id holds.
    Its wrapper around the completion call prepends the stored history to
    the new messages, passes the stream through, and only once the stream
    is exhausted stores the last `length` messages of history, new messages
    and the assistant's answer.

    `ChatHandler` decides, when it is created, which messages a turn adds:
    the whole assembled turn for a chat that does not exist yet, or, for an
    existing chat, the turn without its system message, provided the stored
    system message is the one the role would produce now. */
module Chat {
  import opened Common
  import opened Prompt
  import opened Handler

  /** What the file of one chat id holds: a JSON list of messages, some
      other JSON value, or text that is not JSON at all. */
  datatype Record = JsonList(messages: seq<Message>) | JsonOther | NotJson

  // ---------------------------------------------------------------------
  // Truncation: messages[-length:]
  // ---------------------------------------------------------------------

  /** The start index of Python's slice `s[-n:]` on a list of `len`
      elements: a negative start counts from the end and is clamped at 0; a
      positive start (n < 0) is clamped at `len`; `-0` is `0`. */
  function SliceStart(len: nat, n: int): (k: nat)
    ensures k <= len
  {
    if n > 0 then (if n >= len then 0 else len - n)
    else if n == 0 then 0
    else if -n >= len then len
    else -n
  }

  /** `s[-n:]`. */
  function KeepLast<T>(s: seq<T>, n: int): (r: seq<T>)
    ensures |r| <= |s|
  {
    s[SliceStart(|s|, n)..]
  }

  /** Whatever the bound, the slice is a suffix of the list: the kept
      messages are the most recent ones, in their original order. */
  lemma KeepLastIsSuffix<T>(s: seq<T>, n: int)
    ensures KeepLast(s, n) == s[|s| - |KeepLast(s, n)|..]
  {
  }

  /** For a positive bound the slice keeps the last min(n, |s|) elements. */
  lemma KeepLastPositive<T>(s: seq<T>, n: int)
    requires n >= 1
    ensures |KeepLast(s, n)| == if n < |s| then n else |s|
    ensures n >= |s| ==> KeepLast(s, n) == s
  {
  }

  /** A bound of 0 keeps everything: `s[-0:]` is `s[0:]`. */
  lemma KeepLastZero<T>(s: seq<T>)
    ensures KeepLast(s, 0) == s
  {
  }

  /** A negative bound drops the first -n elements instead. */
  lemma KeepLastNegative<T>(s: seq<T>, n: int)
    requires n < 0
    ensures -n <= |s| ==> KeepLast(s, n) == s[-n..]
    ensures -n >= |s| ==> KeepLast(s, n) == []
  {
  }

  /** Truncation does not pin the first element: once the list is longer
      than the bound, the result is the same whether or not element 0 was
      there at all. */
  lemma KeepLastUnpinsFirst<T>(s: seq<T>, n: int)
    requires 1 <= n < |s|
    ensures KeepLast(s, n) == KeepLast(s[1..], n)
    ensures KeepLast(s, n)[0] == s[|s| - n]
  {
  }

  /** The record a completed turn leaves behind: the stored history, the
      turn's messages and the assistant's answer, cut to the last `length`. */
  function Committed(history: seq<Message>, delta: seq<Message>, response: string, length: int): (c: seq<Message>)
    ensures |c| <= |history| + |delta| + 1
  {
    KeepLast(history + delta + [Message(Assistant, response)], length)
  }

  /** With a non-negative bound the committed record ends with the answer
      and holds at most `length` messages (all of them for a bound of 0). */
  lemma CommittedEndsWithAnswer(history: seq<Message>, delta: seq<Message>, response: string, length: int)
    requires length >= 0
    ensures var c := Committed(history, delta, response, length);
      c != [] && Last(c) == Message(Assistant, response) &&
      (length >= 1 ==> |c| <= length) &&
      (length == 0 ==> c == history + delta + [Message(Assistant, response)])
  {
    var all := history + delta + [Message(Assistant, response)];
    var c := Committed(history, delta, response, length);
    KeepLastIsSuffix(all, length);
    assert c == all[|all| - |c|..];
  }

  // ---------------------------------------------------------------------
  // ChatSession
  // ---------------------------------------------------------------------

  class ChatSession {
    /** The storage directory: the content of the file of each id. */
    var store: map<string, Record>
    /** CHAT_CACHE_LENGTH: the bound handed to the slice in `_write`. */
    const length: int

    /** A session over a storage directory that already holds `records`. */
    constructor(length: int, records: map<string, Record>)
      ensures this.length == length && store == records
    {
      this.length := length;
      store := records;
    }

    /** `_read(chat_id)` (and `get_messages`, which returns it): no file
        means an empty history, a JSON value that is not a list also, and
        text that is not JSON raises. The empty id names the storage
        directory itself, whose reading raises. */
    function Read(id: string): (r: Result<seq<Message>>)
      reads this
      ensures id == "" ==> r == Err(NotARecord(id))
      ensures id != "" && id !in store ==> r == Ok([])
      ensures id != "" && id in store ==> (r.Err? <==> store[id].NotJson?)
      ensures r.Err? ==> r.error == NotARecord(id) || r.error == CorruptRecord(id)
      ensures r.Ok? && r.value != [] ==> id in store && store[id] == JsonList(r.value)
      ensures id != "" && id in store && store[id].JsonList? ==> r == Ok(store[id].messages)
      ensures id != "" && id in store && store[id].JsonOther? ==> r == Ok([])
      ensures id != "" && id in store && store[id].NotJson? ==> r == Err(CorruptRecord(id))
    {
      if id == "" then Err(NotARecord(id))
      else if id !in store then Ok([])
      else match store[id]
        case JsonList(messages) => Ok(messages)
        case JsonOther => Ok([])
        case NotJson => Err(CorruptRecord(id))
    }

    /** `exists(chat_id)`: a chat exists when its id is given, non-empty,
        and its stored history is non-empty. */
    function Exists(id: Option<string>): (r: Result<bool>)
      reads this
      ensures id.None? || id == Some("") ==> r == Ok(false)
      ensures id.Some? && id.value != "" ==> (r.Err? <==> Read(id.value).Err?)
      ensures id.Some? && id.value != "" && Read(id.value).Err? ==> r == Err(Read(id.value).error)
      ensures r == Ok(true) <==> id.Some? && id.value != "" && Read(id.value).Ok? && Read(id.value).value != []
    {
      if id.None? || id.value == "" then Ok(false)
      else
        var history := Read(id.value);
        if history.Err? then Err(history.error) else Ok(history.value != [])
    }

    /** `_write(messages, chat_id)`: the file of `id` is replaced by the last
        `length` messages; nothing else changes. Reading it back gives
        exactly the truncated list. */
    method Write(messages: seq<Message>, id: string) returns (r: Result<()>)
      modifies this
      ensures id == "" ==> r == Err(NotARecord(id)) && store == old(store)
      ensures id != "" ==> r == Ok(()) && store == old(store)[id := JsonList(KeepLast(messages, length))]
      ensures id != "" ==> Read(id) == Ok(KeepLast(messages, length))
    {
      if id == "" {
        return Err(NotARecord(id));
      }
      store := store[id := JsonList(KeepLast(messages, length))];
      r := Ok(());
    }

    /** `invalidate(chat_id)`: the file is removed; removing one that does
        not exist raises, and leaves every record as it was. Afterwards the
        chat no longer exists. */
    method Invalidate(id: string) returns (r: Result<()>)
      modifies this
      ensures id == "" ==> r == Err(NotARecord(id)) && store == old(store)
      ensures id != "" && id !in old(store) ==> r == Err(NoSuchRecord(id)) && store == old(store)
      ensures id != "" && id in old(store) ==> r == Ok(()) && store == old(store) - {id}
      ensures id != "" ==> Read(id) == Ok([]) && Exists(Some(id)) == Ok(false)
    {
      if id == "" {
        return Err(NotARecord(id));
      }
      if id !in store {
        return Err(NoSuchRecord(id));
      }
      store := store - {id};
      r := Ok(());
    }

    /** The `__call__` wrapper around `get_completion`. Without a chat id the
        call is forwarded and the store is neither read nor written. With
        one, the stored history (whose read may raise before anything is
        sent) is extended by the new messages and sent; the fragments reach
        the caller unchanged and in order; and only when the stream ends
        normally is the record replaced by the committed history. If the
        stream fails, no record changes. */
    method Wrapper(chatId: Option<string>, client: Client, messages: seq<Message>, params: Params)
      returns (sent: Option<Request>, out: Stream)
      modifies this
      ensures chatId.None? || chatId == Some("") ==>
        sent == Some(Request(messages, params)) && out == client(sent.value) && store == old(store)
      ensures chatId.Some? && chatId.value != "" && old(Read(chatId.value)).Err? ==>
        sent == None && out == Stream([], Some(old(Read(chatId.value)).error)) && store == old(store)
      ensures chatId.Some? && chatId.value != "" && old(Read(chatId.value)).Ok? ==>
        sent == Some(Request(old(Read(chatId.value)).value + messages, params)) && out == client(sent.value)
      ensures chatId.Some? && chatId.value != "" && old(Read(chatId.value)).Ok? && out.failure.None? ==>
        store == old(store)[chatId.value := JsonList(Committed(old(Read(chatId.value)).value, messages, Concat(out.fragments), length))]
      ensures out.failure.Some? ==> store == old(store)
    {
      if chatId.None? || chatId.value == "" {
        var request, stream := GetCompletion(client, messages, params);
        return Some(request), stream;
      }
      var id := chatId.value;
      var stored := Read(id);
      if stored.Err? {
        return None, Stream([], Some(stored.error));
      }
      var history := stored.value;
      var i := 0;
      while i < |messages|
        invariant 0 <= i <= |messages|
        invariant history == stored.value + messages[..i]
        invariant store == old(store)
      {
        history := history + [messages[i]];
        i := i + 1;
      }
      assert messages[..i] == messages;
      var request, stream := GetCompletion(client, history, params);
      sent, out := Some(request), stream;
      var response := "";
      var j := 0;
      while j < |stream.fragments|
        invariant 0 <= j <= |stream.fragments|
        invariant response == Concat(stream.fragments[..j])
        invariant store == old(store)
      {
        ConcatAppend(stream.fragments[..j], stream.fragments[j]);
        assert stream.fragments[..j + 1] == stream.fragments[..j] + [stream.fragments[j]];
        response := response + stream.fragments[j];
        j := j + 1;
      }
      assert stream.fragments[..j] == stream.fragments;
      if stream.failure.Some? {
        return;
      }
      history := history + [Message(Assistant, response)];
      var _ := Write(history, id);
    }
  }

  // ---------------------------------------------------------------------
  // ChatHandler.validate
  // ---------------------------------------------------------------------

  /** `validate`: a chat that is not initiated gets the whole assembled turn
      with its lead-in. An initiated chat gets the turn assembled without
      lead-in, minus its system message, when that system message has the
      content of the stored first message; otherwise the chat cannot be
      continued with this role and both texts are reported. */
  function Validate(initiated: bool, history: seq<Message>, chatId: string, prompt: string,
                    role: Option<string>, roles: map<string, RoleDef>, h: Host): (r: Result<seq<Message>>)
    requires initiated ==> history != []
    requires ConstructorSafe(prompt, role, roles, h)
    ensures !initiated ==> r == Assemble(prompt, role, true, roles, h)
    ensures initiated && Assemble(prompt, role, false, roles, h).Err? ==>
      r == Assemble(prompt, role, false, roles, h)
    ensures initiated && Assemble(prompt, role, false, roles, h).Ok? ==>
      var hyp := Assemble(prompt, role, false, roles, h).value;
      (hyp[0].content == history[0].content ==> r == Ok(hyp[1..])) &&
      (hyp[0].content != history[0].content ==>
        r == Err(IdentityConflict(chatId, history[0].content, hyp[0].content)))
  {
    if initiated then
      var hyp := Assemble(prompt, role, false, roles, h);
      if hyp.Err? then hyp
      else if hyp.value[0].content == history[0].content then Ok(hyp.value[1..])
      else Err(IdentityConflict(chatId, history[0].content, hyp.value[0].content))
    else Assemble(prompt, role, true, roles, h)
  }

  /** A new chat starts with the system message and ends with the user
      message, lead-in included when the role has one. */
  lemma ValidateFresh(history: seq<Message>, chatId: string, prompt: string,
                      role: Option<string>, roles: map<string, RoleDef>, h: Host)
    requires ConstructorSafe(prompt, role, roles, h)
    requires Validate(false, history, chatId, prompt, role, roles, h).Ok?
    ensures var r := Validate(false, history, chatId, prompt, role, roles, h).value;
      RoleName(role) in roles &&
      |r| == 2 + LeadInCount(roles[RoleName(role)], true) &&
      r[0].role == System && Last(r).role == User
  {
  }

  /** A continued chat adds exactly one message, the user message: no
      system message and no lead-in is sent again. */
  lemma ValidateContinuing(history: seq<Message>, chatId: string, prompt: string,
                           role: Option<string>, roles: map<string, RoleDef>, h: Host)
    requires history != []
    requires ConstructorSafe(prompt, role, roles, h)
    requires Validate(true, history, chatId, prompt, role, roles, h).Ok?
    ensures var r := Validate(true, history, chatId, prompt, role, roles, h).value;
      |r| == 1 && r[0].role == User &&
      r[0] == Last(Assemble(prompt, role, false, roles, h).value)
  {
    var hyp := Assemble(prompt, role, false, roles, h);
    assert hyp.Ok?;
    assert RoleName(role) in roles;
    assert LeadInCount(roles[RoleName(role)], false) == 0;
    assert |hyp.value| == 2;
    var r := Validate(true, history, chatId, prompt, role, roles, h);
    assert r == Ok(hyp.value[1..]);
  }

  /** An identity conflict happens exactly when the turn can be assembled
      and its system message differs from the stored first message; then no
      messages are produced. */
  lemma ValidateConflict(history: seq<Message>, chatId: string, prompt: string,
                         role: Option<string>, roles: map<string, RoleDef>, h: Host)
    requires history != []
    requires ConstructorSafe(prompt, role, roles, h)
    ensures var r := Validate(true, history, chatId, prompt, role, roles, h);
      var hyp := Assemble(prompt, role, false, roles, h);
      (r.Err? && r.error.IdentityConflict?) <==>
        (hyp.Ok? && hyp.value[0].content != history[0].content)
  {
    var hyp := Assemble(prompt, role, false, roles, h);
    if hyp.Err? {
      assert hyp.error.RoleNotFound? || hyp.error.MissingKey?;
    }
  }

  /** A chat whose stored first message is the system message of the same
      role on the same host (whatever prompt and `chat_init` produced it)
      can always be continued: validation never reports a conflict. */
  lemma SameRoleContinues(history: seq<Message>, chatId: string, p1: string, c1: bool, p2: string,
                          role: Option<string>, roles: map<string, RoleDef>, h: Host)
    requires ConstructorSafe(p1, role, roles, h) && ConstructorSafe(p2, role, roles, h)
    requires Assemble(p1, role, c1, roles, h).Ok?
    requires history != [] && history[0] == Assemble(p1, role, c1, roles, h).value[0]
    ensures var r := Validate(true, history, chatId, p2, role, roles, h);
      !(r.Err? && r.error.IdentityConflict?)
  {
    var hyp := Assemble(p2, role, false, roles, h);
    if hyp.Ok? {
      SystemMessageStable(p1, p2, role, c1, false, roles, h);
      assert hyp.value[0].content == history[0].content;
    }
  }

  /** With CHAT_CACHE_LENGTH 4, a chat started as [system, user, answer]
      and continued by one more turn is stored as [user, answer, user,
      answer]: the system message is gone. */
  lemma SecondCommitDropsSystem(system: Message, u1: Message, a1: Message, u2: Message, answer: string)
    ensures Committed([system, u1, a1], [u2], answer, 4) == [u1, a1, u2, Message(Assistant, answer)]
  {
    var all := [system, u1, a1] + [u2] + [Message(Assistant, answer)];
    assert all == [system, u1, a1, u2, Message(Assistant, answer)];
    assert all[1..] == [u1, a1, u2, Message(Assistant, answer)];
  }

  /** The system message is not pinned by truncation: after the commit
      above, the third turn compares the role's system message with the
      first user message and, unless the two texts coincide, the chat can
      no longer be continued. */
  lemma SecondCommitLosesSystem(system: Message, u1: Message, a1: Message, u2: Message, answer: string,
                                chatId: string, prompt: string, role: Option<string>,
                                roles: map<string, RoleDef>, h: Host)
    requires ConstructorSafe(prompt, role, roles, h)
    requires Assemble(prompt, role, false, roles, h).Ok?
    requires Assemble(prompt, role, false, roles, h).value[0].content != u1.content
    ensures Validate(true, Committed([system, u1, a1], [u2], answer, 4), chatId, prompt, role, roles, h) ==
      Err(IdentityConflict(chatId, u1.content, Assemble(prompt, role, false, roles, h).value[0].content))
  {
    SecondCommitDropsSystem(system, u1, a1, u2, answer);
  }

  // ---------------------------------------------------------------------
  // ChatHandler
  // ---------------------------------------------------------------------

  class ChatHandler {
    const client: Client
    const chatId: string
    const prompt: string
    const role: Option<string>
    const model: string
    /** The session shared by every chat handler (a class attribute). */
    const session: ChatSession
    /** The history read when the handler was created. */
    const chatHistory: seq<Message>
    /** The messages this handler's turn adds, fixed at creation. */
    const messages: seq<Message>

    constructor Init(client: Client, chatId: string, prompt: string, role: Option<string>, model: string,
                     session: ChatSession, chatHistory: seq<Message>, messages: seq<Message>)
      ensures this.client == client && this.chatId == chatId && this.prompt == prompt
      ensures this.role == role && this.model == model && this.session == session
      ensures this.chatHistory == chatHistory && this.messages == messages
    {
      this.client := client;
      this.chatId := chatId;
      this.prompt := prompt;
      this.role := role;
      this.model := model;
      this.session := session;
      this.chatHistory := chatHistory;
      this.messages := messages;
    }

    /** `ChatHandler.__init__`: the stored history is read, `initiated` asks
        the session whether the chat exists, and `validate` fixes the turn's
        messages. Any of the three may raise, and then no handler exists. */
    static method Open(client: Client, chatId: string, prompt: string, role: Option<string>, model: string,
                       session: ChatSession, roles: map<string, RoleDef>, h: Host)
      returns (r: Result<ChatHandler>)
      requires ConstructorSafe(prompt, role, roles, h)
      ensures session.Read(chatId).Err? ==> r == Err(session.Read(chatId).error)
      ensures session.Read(chatId).Ok? ==>
        var history := session.Read(chatId).value;
        var v := Validate(history != [], history, chatId, prompt, role, roles, h);
        (r.Err? <==> v.Err?) && (r.Err? ==> r.error == v.error) &&
        (r.Ok? ==> r.value.messages == v.value && r.value.chatHistory == history)
      ensures r.Ok? ==> fresh(r.value) && r.value.session == session && r.value.client == client
      ensures r.Ok? ==> r.value.chatId == chatId && r.value.prompt == prompt && r.value.role == role
      ensures r.Ok? ==> r.value.model == model
    {
      var history := session.Read(chatId);
      if history.Err? {
        return Err(history.error);
      }
      var initiated := session.Exists(Some(chatId));
      assert initiated == Ok(history.value != []);
      var v := Validate(initiated.value, history.value, chatId, prompt, role, roles, h);
      if v.Err? {
        return Err(v.error);
      }
      var handler := new ChatHandler.Init(client, chatId, prompt, role, model, session, history.value, v.value);
      r := Ok(handler);
    }

    /** `handle(**kwargs)` of a chat handler: its fixed messages go through
        the session's wrapper (with the `chat_id` keyword argument), every
        fragment is echoed in order, and the completion is returned. The
        store changes only when the stream ends normally. */
    method Handle(chatIdArg: Option<string>, params: Params)
      returns (sent: Option<Request>, trace: seq<string>, r: Result<string>)
      modifies session
      ensures chatIdArg.None? || chatIdArg == Some("") ==>
        sent == Some(Request(messages, params)) && session.store == old(session.store)
      ensures chatIdArg.Some? && chatIdArg.value != "" && old(session.Read(chatIdArg.value)).Err? ==>
        sent == None && trace == [] && r == Err(old(session.Read(chatIdArg.value)).error)
      ensures chatIdArg.Some? && chatIdArg.value != "" && old(session.Read(chatIdArg.value)).Ok? ==>
        sent == Some(Request(old(session.Read(chatIdArg.value)).value + messages, params))
      ensures sent.Some? ==> trace == client(sent.value).fragments
      ensures sent.Some? ==> (r.Ok? <==> client(sent.value).failure.None?)
      ensures r.Ok? ==> r.value == Concat(trace)
      ensures sent.Some? && client(sent.value).failure.Some? ==> r == Err(client(sent.value).failure.value)
      ensures r.Err? ==> session.store == old(session.store)
      ensures chatIdArg.Some? && chatIdArg.value != "" && r.Ok? ==>
        session.store == old(session.store)[chatIdArg.value :=
          JsonList(Committed(old(session.Read(chatIdArg.value)).value, messages, r.value, session.length))]
    {
      var out;
      sent, out := session.Wrapper(chatIdArg, client, messages, params);
      trace, r := Drain(out);
    }
  }
}
