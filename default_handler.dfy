/** The one-shot handler (sgpt/handlers/default_handler.py): every call
    assembles a fresh turn, lead-in included, from the prompt and role it
    was given, and nothing is read from or written to the chat cache. */
module OneShot {
  import opened Common
  import opened Prompt
  import opened Handler

  /** A one-shot handler keeps only its client, prompt, role and model; none
      of them changes after construction. */
  datatype DefaultHandler = DefaultHandler(client: Client, prompt: string, role: Option<string>, model: string)
  {
    /** `get_messages`: `prompt_constructor(prompt, role, chat_init=True)`,
        computed anew from the role store and the host at each call. The
        turn opens with the system message, closes with the user message,
        and always carries the role's lead-in. */
    function GetMessages(roles: map<string, RoleDef>, h: Host): (r: Result<seq<Message>>)
      requires ConstructorSafe(prompt, role, roles, h)
      ensures r == Assemble(prompt, role, true, roles, h)
      ensures r.Ok? ==> RoleName(role) in roles
      ensures r.Ok? ==>
        |r.value| == 2 + LeadInCount(roles[RoleName(role)], true) &&
        r.value[0].role == System && Last(r.value).role == User
    {
      Assemble(prompt, role, true, roles, h)
    }

    /** The handler's turn: `handle` over `GetMessages`. The method modifies
        nothing, so a one-shot turn persists nothing. */
    method Handle(roles: map<string, RoleDef>, h: Host, params: Params)
      returns (sent: Option<Request>, trace: seq<string>, r: Result<string>)
      requires ConstructorSafe(prompt, role, roles, h)
      ensures GetMessages(roles, h).Err? ==> sent == None && trace == [] && r == Err(GetMessages(roles, h).error)
      ensures GetMessages(roles, h).Ok? ==> sent == Some(Request(GetMessages(roles, h).value, params))
      ensures sent.Some? ==> trace == client(sent.value).fragments
      ensures sent.Some? && client(sent.value).failure.None? ==> r == Ok(Concat(trace))
      ensures sent.Some? && client(sent.value).failure.Some? ==> r == Err(client(sent.value).failure.value)
    {
      sent, trace, r := Handler.Handle(GetMessages(roles, h), client, params);
    }
  }

  /** Whatever the role's lead-in, a one-shot turn carries all of it, in
      order and completed, between the system and the user message. */
  lemma OneShotIncludesLeadIn(d: DefaultHandler, roles: map<string, RoleDef>, h: Host, lead: seq<LeadIn>)
    requires ConstructorSafe(d.prompt, d.role, roles, h)
    requires d.GetMessages(roles, h).Ok?
    requires RoleName(d.role) in roles && roles[RoleName(d.role)].leadIn == Some(lead)
    ensures var r := d.GetMessages(roles, h).value;
      CompletedLeadIn(lead, h).Ok? && r[1..|r| - 1] == CompletedLeadIn(lead, h).value
  {
    AssembleLayout(d.prompt, d.role, true, roles, h);
  }
}
