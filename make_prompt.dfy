/** Prompt assembly (sgpt/make_prompt.py): a raw prompt plus a role record
    become the ordered message list of one turn: the role's system message,
    optionally the role's lead-in examples, and the final user message.

    Host probing (`platform.system()`, the distribution name, the release
    and macOS version strings, the SHELL and COMSPEC variables) is a `Host`
    value given by the caller; the role store is a map from role name to
    role record. */
module Prompt {
  import opened Common
  import opened Text

  // ---------------------------------------------------------------------
  // Role records and templates
  // ---------------------------------------------------------------------

  /** A `str.format` template, already split into literal text and
      `{name}` fields. */
  datatype Segment = Lit(text: string) | Ph(key: string)
  type Template = seq<Segment>

  /** One entry of a role's CONVERSATION_LEAD_IN list; its content may use
      `{os}` and `{shell}`. */
  datatype LeadIn = LeadIn(role: Role, content: Template)

  /** A role record as the role store saves it: SYSTEM_MESSAGE, the optional
      PROMPT_STRUCTURE and CONVERSATION_LEAD_IN keys, EXECUTABLE_RETURNS. */
  datatype RoleDef = RoleDef(
    system: Template,
    structure: Option<Template>,
    leadIn: Option<seq<LeadIn>>,
    executable: bool)

  /** What `message_completer` probes from the host: `platform.system()`,
      the pretty distribution name, `platform.release()`, the macOS version,
      the SHELL and COMSPEC variables, and whether `os.path` is `ntpath`. */
  datatype Host = Host(
    platform: string,
    distro: string,
    release: string,
    macVersion: string,
    shellVar: Option<string>,
    comspecVar: Option<string>,
    ntPaths: bool)

  /** The role used when none, or the empty name, is given. */
  const DefaultRole := "default"

  function RoleName(role: Option<string>): (name: string)
    ensures name != ""
    ensures role == None || role == Some("") ==> name == DefaultRole
    ensures role.Some? && role.value != "" ==> name == role.value
  {
    if role.None? || role.value == "" then DefaultRole else role.value
  }

  // ---------------------------------------------------------------------
  // message_completer: the {os}/{shell}/{prompt} context and expansion
  // ---------------------------------------------------------------------

  /** The operating-system name: Linux, Windows and Darwin are decorated
      with the distribution, release or macOS version; any other platform
      string is used as it is. */
  function OsName(h: Host): (os: string)
    ensures h.platform == "Linux" ==> os == "Linux/" + h.distro
    ensures h.platform == "Windows" ==> os == "Windows " + h.release
    ensures h.platform == "Darwin" ==> os == "Darwin/MacOS " + h.macVersion
    ensures h.platform != "Linux" && h.platform != "Windows" && h.platform != "Darwin" ==> os == h.platform
  {
    if h.platform == "Linux" then "Linux/" + h.distro
    else if h.platform == "Windows" then "Windows " + h.release
    else if h.platform == "Darwin" then "Darwin/MacOS " + h.macVersion
    else h.platform
  }

  /** The mapped name is "nt" exactly when the platform string itself is
      "nt": no decorated name can be "nt", so the COMSPEC branch is reached
      only on a platform that reports itself as "nt". */
  lemma OsNameIsNt(h: Host)
    ensures OsName(h) == "nt" <==> h.platform == "nt"
  {
    if h.platform == "Linux" {
      assert |OsName(h)| >= 6;
    } else if h.platform == "Windows" {
      assert |OsName(h)| >= 8;
    } else if h.platform == "Darwin" {
      assert |OsName(h)| >= 13;
    }
  }

  /** The shell name: the base name of SHELL (default "PowerShell"), or, when
      the mapped OS name is "nt", the base name of COMSPEC (default
      "Powershell") without its extension. */
  function ShellName(h: Host): (shell: string)
    ensures h.platform != "nt" ==>
      shell == Basename(GetOr(h.shellVar, "PowerShell"), h.ntPaths)
    ensures h.platform == "nt" ==>
      shell == StripExtension(Basename(GetOr(h.comspecVar, "Powershell"), h.ntPaths))
  {
    OsNameIsNt(h);
    var shell := Basename(GetOr(h.shellVar, "PowerShell"), h.ntPaths);
    if OsName(h) == "nt" then StripExtension(Basename(GetOr(h.comspecVar, "Powershell"), h.ntPaths))
    else shell
  }

  /** The keyword arguments handed to `format`: `prompt` only when the
      prompt is non-empty (a `None` prompt is the empty one here). */
  function Context(h: Host, prompt: string): (ctx: map<string, string>)
    ensures ctx.Keys == if prompt != "" then {"os", "shell", "prompt"} else {"os", "shell"}
    ensures ctx["os"] == OsName(h) && ctx["shell"] == ShellName(h)
    ensures prompt != "" ==> ctx["prompt"] == prompt
  {
    var base := map["shell" := ShellName(h), "os" := OsName(h)];
    if prompt != "" then base["prompt" := prompt] else base
  }

  /** Every field of `t` has a value in `ctx`. */
  predicate Covered(t: Template, ctx: map<string, string>) {
    forall i :: 0 <= i < |t| && t[i].Ph? ==> t[i].key in ctx
  }

  predicate Mentions(t: Template, key: string) {
    exists i :: 0 <= i < |t| && t[i] == Ph(key)
  }

  /** `template.format(**ctx)`: fields are filled left to right and the first
      field without a value raises KeyError. */
  function Expand(t: Template, ctx: map<string, string>): (r: Result<string>)
    ensures r.Err? ==> r.error.MissingKey?
    decreases |t|
  {
    if t == [] then Ok("")
    else
      var head := match t[0]
        case Lit(s) => Ok(s)
        case Ph(k) => if k in ctx then Ok(ctx[k]) else Err(MissingKey(k));
      if head.Err? then head
      else
        var rest := Expand(t[1..], ctx);
        if rest.Err? then rest else Ok(head.value + rest.value)
  }

  /** Expansion succeeds exactly when every field has a value; when it
      fails, the key it reports is one the template uses and the context
      lacks. */
  lemma {:induction false} ExpandDefined(t: Template, ctx: map<string, string>)
    ensures Expand(t, ctx).Ok? <==> Covered(t, ctx)
    ensures Expand(t, ctx).Err? ==> Expand(t, ctx).error.key !in ctx && Mentions(t, Expand(t, ctx).error.key)
    decreases |t|
  {
    if t != [] {
      ExpandDefined(t[1..], ctx);
      assert forall i :: 1 <= i < |t| ==> t[i] == t[1..][i - 1];
      var r := Expand(t, ctx);
      if t[0].Ph? && t[0].key !in ctx {
        assert r == Err(MissingKey(t[0].key));
      } else if Expand(t[1..], ctx).Err? {
        var k :| 0 <= k < |t[1..]| && t[1..][k] == Ph(r.error.key);
        assert t[k + 1] == Ph(r.error.key);
      }
    }
  }

  /** `message_completer(message, prompt)`: the template filled with the
      host's OS and shell names and, when it is non-empty, the prompt. */
  function MessageCompleter(message: Template, prompt: string, h: Host): (r: Result<string>)
    ensures r.Err? ==> r.error.MissingKey?
  {
    Expand(message, Context(h, prompt))
  }

  /** Completion succeeds exactly when the template uses no field other
      than `os`, `shell` and, for a non-empty prompt, `prompt`. */
  lemma MessageCompleterDefined(message: Template, prompt: string, h: Host)
    ensures MessageCompleter(message, prompt, h).Ok? <==>
      forall i :: 0 <= i < |message| && message[i].Ph? ==>
        message[i].key == "os" || message[i].key == "shell" || (message[i].key == "prompt" && prompt != "")
    ensures MessageCompleter(message, prompt, h).Err? ==>
      Mentions(message, MessageCompleter(message, prompt, h).error.key)
  {
    ExpandDefined(message, Context(h, prompt));
  }

  /** A template with a `{prompt}` field cannot be completed without a
      prompt: an empty prompt is never supplied to `format`. */
  lemma PromptFieldNeedsPrompt(t: Template, h: Host)
    requires Mentions(t, "prompt")
    ensures MessageCompleter(t, "", h).Err?
  {
    var i :| 0 <= i < |t| && t[i] == Ph("prompt");
    MessageCompleterDefined(t, "", h);
  }

  // ---------------------------------------------------------------------
  // message_constructor: a message built by JSON interpolation
  // ---------------------------------------------------------------------

  /** The role tag written into the JSON text; it reads back as the same
      role. */
  function RoleTag(role: Role): (tag: string)
    ensures JsonSafe(tag) && TagRole(tag) == Some(role)
  {
    match role
    case System => "system"
    case User => "user"
    case Assistant => "assistant"
  }

  function TagRole(tag: string): Option<Role> {
    if tag == "system" then Some(System)
    else if tag == "user" then Some(User)
    else if tag == "assistant" then Some(Assistant)
    else None
  }

  const JsonOpen := "{\"role\": \""
  const JsonMiddle := "\", \"content\": \""
  const JsonClose := "\"}"

  /** The JSON text `message_constructor` formats: the content is pasted
      between quotes without any escaping. */
  function Interpolate(tag: string, content: string): (text: string)
    ensures |text| == |JsonOpen| + |tag| + |JsonMiddle| + |content| + |JsonClose|
  {
    JsonOpen + tag + JsonMiddle + content + JsonClose
  }

  /** Splits the text after an opening quote into the string's characters
      and the rest, which starts at the closing quote. */
  function TakeString(s: string): Option<(string, string)> {
    var q := IndexOf(s, '"');
    if q < 0 then None else Some((s[..q], s[q..]))
  }

  lemma TakeStringOf(chars: string, rest: string)
    requires JsonSafe(chars)
    requires rest != [] && rest[0] == '"'
    ensures TakeString(chars + rest) == Some((chars, rest))
  {
    var s := chars + rest;
    assert s[|chars|] == '"';
    assert forall j :: 0 <= j < |chars| ==> s[j] == chars[j];
    IndexOfIsFirst(s, '"');
    assert IndexOf(s, '"') == |chars|;
    assert s[..|chars|] == chars && s[|chars|..] == rest;
  }

  /** `json.loads(text, strict=False)` restricted to the texts of the
      `Interpolate` shape whose two strings need no unescaping; every other
      text is reported as malformed. */
  function LoadMessage(text: string): (r: Result<Message>)
    ensures r.Err? ==> r.error == MalformedJson
  {
    if !(JsonOpen <= text) then Err(MalformedJson)
    else match TakeString(text[|JsonOpen|..])
      case None => Err(MalformedJson)
      case Some((tag, after)) => LoadContent(tag, after)
  }

  /** The second half of `LoadMessage`: the text after the role string. */
  function LoadContent(tag: string, after: string): Result<Message> {
    if !(JsonMiddle <= after) then Err(MalformedJson)
    else match TakeString(after[|JsonMiddle|..])
      case None => Err(MalformedJson)
      case Some((content, tail)) =>
        if tail != JsonClose || !JsonSafe(content) then Err(MalformedJson)
        else match TagRole(tag)
          case None => Err(MalformedJson)
          case Some(role) => Ok(Message(role, content))
  }

  /** The object opening, a JSON-safe role string and a rest starting at
      its closing quote: the loader goes on to the rest. */
  lemma LoadMessageOf(text: string, tag: string, after: string)
    requires text == JsonOpen + (tag + after)
    requires JsonSafe(tag) && after != [] && after[0] == '"'
    ensures LoadMessage(text) == LoadContent(tag, after)
  {
    assert text[|JsonOpen|..] == tag + after;
    TakeStringOf(tag, after);
  }

  /** The rest of an interpolated message loads to its role and content. */
  lemma LoadContentOf(tag: string, content: string)
    requires JsonSafe(content) && TagRole(tag).Some?
    ensures LoadContent(tag, JsonMiddle + content + JsonClose) == Ok(Message(TagRole(tag).value, content))
  {
    var after := JsonMiddle + content + JsonClose;
    assert after[|JsonMiddle|..] == content + JsonClose;
    TakeStringOf(content, JsonClose);
  }

  /** Loading an interpolated message gives back the role and the exact
      content, provided the content needs no JSON escaping. */
  lemma LoadInterpolated(role: Role, content: string)
    requires JsonSafe(content)
    ensures LoadMessage(Interpolate(RoleTag(role), content)) == Ok(Message(role, content))
  {
    var tag := RoleTag(role);
    var after := JsonMiddle + content + JsonClose;
    Regroup(JsonOpen, tag, JsonMiddle, content, JsonClose);
    LoadMessageOf(Interpolate(tag, content), tag, after);
    LoadContentOf(tag, content);
  }

  /** The string `TakeString` reads and the rest make up its input. */
  lemma TakeStringSplits(s: string)
    requires TakeString(s).Some?
    ensures s == TakeString(s).value.0 + TakeString(s).value.1
  {
    var q := IndexOf(s, '"');
    assert s == s[..q] + s[q..];
  }

  /** The text after the role string that `LoadContent` accepts is the
      rest of an interpolated message, and the role string is its tag. */
  lemma LoadContentIsInterpolated(tag: string, after: string)
    requires LoadContent(tag, after).Ok?
    ensures var m := LoadContent(tag, after).value;
      tag == RoleTag(m.role) && after == JsonMiddle + m.content + JsonClose && JsonSafe(m.content)
  {
    var rest := after[|JsonMiddle|..];
    TakeStringSplits(rest);
    PrefixRest(JsonMiddle, after);
  }

  /** The first half of `LoadMessage`: an accepted text opens the object
      and continues with the role string and what follows it. */
  lemma LoadMessageOpens(text: string)
    requires LoadMessage(text).Ok?
    ensures JsonOpen <= text && TakeString(text[|JsonOpen|..]).Some?
    ensures var split := TakeString(text[|JsonOpen|..]).value;
      text == JsonOpen + (split.0 + split.1) && LoadMessage(text) == LoadContent(split.0, split.1)
  {
    TakeStringSplits(text[|JsonOpen|..]);
    PrefixRest(JsonOpen, text);
  }

  /** Conversely, the only texts the restricted loader accepts are the ones
      `Interpolate` writes: a loaded message formats back to its text. */
  lemma LoadMessageIsInterpolated(text: string)
    requires LoadMessage(text).Ok?
    ensures JsonSafe(LoadMessage(text).value.content)
    ensures text == Interpolate(RoleTag(LoadMessage(text).value.role), LoadMessage(text).value.content)
  {
    LoadMessageOpens(text);
    var split := TakeString(text[|JsonOpen|..]).value;
    var tag, after := split.0, split.1;
    LoadContentIsInterpolated(tag, after);
    var m := LoadMessage(text).value;
    Regroup(JsonOpen, tag, JsonMiddle, m.content, JsonClose);
  }

  lemma PrefixRest<T>(p: seq<T>, s: seq<T>)
    requires p <= s
    ensures s == p + s[|p|..]
  {
    assert s[..|p|] == p;
  }

  lemma Regroup<T>(a: seq<T>, b: seq<T>, c: seq<T>, d: seq<T>, e: seq<T>)
    ensures a + (b + (c + d + e)) == a + b + c + d + e
  {
  }

  /** The role `message_constructor` picks: system over user over assistant. */
  function FlagRole(system: bool, user: bool): Role {
    if system then System else if user then User else Assistant
  }

  /** `message_constructor`: fails when no role flag is set; otherwise the
      message has the preferred role and the given text. */
  function MessageConstructor(text: string, system: bool, user: bool, assistant: bool): (r: Result<Message>)
    requires JsonSafe(text)
    ensures r.Err? <==> !(system || user || assistant)
    ensures r.Err? ==> r.error == NoRoleFlag
    ensures r.Ok? ==> r.value.content == text
    ensures system ==> r.Ok? && r.value.role == System
    ensures !system && user ==> r.Ok? && r.value.role == User
    ensures !system && !user && assistant ==> r.Ok? && r.value.role == Assistant
  {
    if !(system || user || assistant) then Err(NoRoleFlag)
    else Ok(Message(FlagRole(system, user), text))
  }

  /** `MessageConstructor` computes what the source computes: the message
      text formatted into a JSON object and loaded back. */
  lemma MessageConstructorIsJsonRoundTrip(text: string, system: bool, user: bool, assistant: bool)
    requires JsonSafe(text)
    requires system || user || assistant
    ensures MessageConstructor(text, system, user, assistant) ==
            LoadMessage(Interpolate(RoleTag(FlagRole(system, user)), text))
  {
    LoadInterpolated(FlagRole(system, user), text);
  }

  // ---------------------------------------------------------------------
  // conversation_lead_in_context_completer
  // ---------------------------------------------------------------------

  /** The lead-in list with every content completed, or the first failure. */
  function CompletedLeadIn(lead: seq<LeadIn>, h: Host): (r: Result<seq<Message>>)
    ensures r.Ok? ==> |r.value| == |lead|
    decreases |lead|
  {
    if lead == [] then Ok([])
    else
      var n := |lead| - 1;
      var done := CompletedLeadIn(lead[..n], h);
      if done.Err? then done
      else
        var content := MessageCompleter(lead[n].content, "", h);
        if content.Err? then Err(content.error)
        else Ok(done.value + [Message(lead[n].role, content.value)])
  }

  /** Completion of the lead-in succeeds exactly when every entry's
      content can be completed. */
  lemma {:induction false} CompletedLeadInDefined(lead: seq<LeadIn>, h: Host)
    ensures CompletedLeadIn(lead, h).Ok? <==>
      forall i :: 0 <= i < |lead| ==> MessageCompleter(lead[i].content, "", h).Ok?
    decreases |lead|
  {
    if lead != [] {
      var n := |lead| - 1;
      var prefix := lead[..n];
      CompletedLeadInDefined(prefix, h);
      if CompletedLeadIn(prefix, h).Err? {
        assert CompletedLeadIn(lead, h).Err?;
        var j :| 0 <= j < n && !MessageCompleter(prefix[j].content, "", h).Ok?;
        assert prefix[j] == lead[j];
      } else if MessageCompleter(lead[n].content, "", h).Err? {
        assert CompletedLeadIn(lead, h).Err?;
      } else {
        assert CompletedLeadIn(lead, h).Ok?;
        forall i | 0 <= i < |lead|
          ensures MessageCompleter(lead[i].content, "", h).Ok?
        {
          if i < n {
            assert prefix[i] == lead[i];
          }
        }
      }
    }
  }

  /** A completed lead-in keeps every entry's role and position and holds
      its completed content. */
  lemma {:induction false} CompletedLeadInElements(lead: seq<LeadIn>, h: Host)
    requires CompletedLeadIn(lead, h).Ok?
    ensures forall i :: 0 <= i < |lead| ==>
      CompletedLeadIn(lead, h).value[i].role == lead[i].role &&
      MessageCompleter(lead[i].content, "", h) == Ok(CompletedLeadIn(lead, h).value[i].content)
    decreases |lead|
  {
    if lead != [] {
      var n := |lead| - 1;
      var prefix := lead[..n];
      CompletedLeadInElements(prefix, h);
      var done := CompletedLeadIn(prefix, h).value;
      var last := Message(lead[n].role, MessageCompleter(lead[n].content, "", h).value);
      assert CompletedLeadIn(lead, h).value == done + [last];
      forall i | 0 <= i < |lead|
        ensures CompletedLeadIn(lead, h).value[i].role == lead[i].role
        ensures MessageCompleter(lead[i].content, "", h) == Ok(CompletedLeadIn(lead, h).value[i].content)
      {
        if i < n {
          assert prefix[i] == lead[i];
        }
      }
    }
  }

  /** A failed lead-in reports the error of one of its entries. */
  lemma {:induction false} CompletedLeadInError(lead: seq<LeadIn>, h: Host)
    requires CompletedLeadIn(lead, h).Err?
    ensures exists i :: 0 <= i < |lead| && MessageCompleter(lead[i].content, "", h) == Err(CompletedLeadIn(lead, h).error)
    decreases |lead|
  {
    var n := |lead| - 1;
    var prefix := lead[..n];
    if CompletedLeadIn(prefix, h).Err? {
      CompletedLeadInError(prefix, h);
      var i :| 0 <= i < n && MessageCompleter(prefix[i].content, "", h) == Err(CompletedLeadIn(prefix, h).error);
      assert prefix[i] == lead[i];
    } else {
      assert MessageCompleter(lead[n].content, "", h) == Err(CompletedLeadIn(lead, h).error);
    }
  }

  /** Once a prefix of the lead-in fails, the whole list fails the same way. */
  lemma {:induction false} LeadInFailurePersists(lead: seq<LeadIn>, k: nat, h: Host)
    requires k <= |lead|
    requires CompletedLeadIn(lead[..k], h).Err?
    ensures CompletedLeadIn(lead, h) == CompletedLeadIn(lead[..k], h)
    decreases |lead| - k
  {
    if k < |lead| {
      assert lead[..k + 1][..k] == lead[..k];
      LeadInFailurePersists(lead, k + 1, h);
    } else {
      assert lead[..k] == lead;
    }
  }

  /** One more entry: the completed prefix grows by that entry's message,
      or fails with that entry's error. */
  lemma LeadInStep(lead: seq<LeadIn>, i: nat, h: Host)
    requires i < |lead| && CompletedLeadIn(lead[..i], h).Ok?
    ensures var content := MessageCompleter(lead[i].content, "", h);
      CompletedLeadIn(lead[..i + 1], h) ==
        if content.Err? then Err(content.error)
        else Ok(CompletedLeadIn(lead[..i], h).value + [Message(lead[i].role, content.value)])
  {
    var prefix := lead[..i + 1];
    assert prefix[..i] == lead[..i];
    assert prefix[i] == lead[i];
  }

  /** The loop of `conversation_lead_in_context_completer`: each entry's
      content is replaced by its completion, in order, keeping its role. */
  method CompleteLeadIn(lead: seq<LeadIn>, h: Host) returns (r: Result<seq<Message>>)
    ensures r == CompletedLeadIn(lead, h)
  {
    var completed: seq<Message> := [];
    var i := 0;
    while i < |lead|
      invariant 0 <= i <= |lead|
      invariant CompletedLeadIn(lead[..i], h) == Ok(completed)
    {
      var content := MessageCompleter(lead[i].content, "", h);
      LeadInStep(lead, i, h);
      if content.Err? {
        LeadInFailurePersists(lead, i + 1, h);
        return Err(content.error);
      }
      completed := completed + [Message(lead[i].role, content.value)];
      i := i + 1;
    }
    assert lead[..i] == lead;
    r := Ok(completed);
  }

  // ---------------------------------------------------------------------
  // following_prompt_constructor and prompt_constructor
  // ---------------------------------------------------------------------

  /** A completed text contains nothing that breaks the JSON interpolation. */
  predicate TextSafe(r: Result<string>) {
    r.Ok? ==> JsonSafe(r.value)
  }

  /** The text `following_prompt_constructor` hands to `message_constructor`
      is JSON-safe. */
  predicate FollowingSafe(prompt: string, rd: RoleDef, h: Host) {
    match rd.structure
    case None => JsonSafe(Strip(prompt))
    case Some(t) => TextSafe(MessageCompleter(t, Strip(prompt), h))
  }

  /** `following_prompt_constructor`: the stripped prompt as a user message,
      either verbatim or filled into the role's PROMPT_STRUCTURE. */
  function FollowingPromptConstructor(prompt: string, rd: RoleDef, h: Host): (r: Result<Message>)
    requires FollowingSafe(prompt, rd, h)
    ensures r.Ok? ==> r.value.role == User
    ensures rd.structure.None? ==> r == Ok(Message(User, Strip(prompt)))
    ensures rd.structure.Some? ==>
      var filled := MessageCompleter(rd.structure.value, Strip(prompt), h);
      (r.Ok? <==> filled.Ok?) &&
      (r.Ok? ==> r.value.content == filled.value) &&
      (r.Err? ==> r.error == filled.error)
  {
    var p := Strip(prompt);
    match rd.structure
    case None => MessageConstructor(p, false, true, false)
    case Some(t) =>
      var filled := MessageCompleter(t, p, h);
      if filled.Err? then Err(filled.error)
      else MessageConstructor(filled.value, false, true, false)
  }

  /** How many lead-in messages a turn includes. */
  function LeadInCount(rd: RoleDef, chatInit: bool): nat {
    if chatInit && rd.leadIn.Some? then |rd.leadIn.value| else 0
  }

  /** The lead-in part of a turn: the completed lead-in when it is included,
      nothing otherwise. */
  function LeadInPart(rd: RoleDef, chatInit: bool, h: Host): (r: Result<seq<Message>>)
    ensures r.Ok? ==> |r.value| == LeadInCount(rd, chatInit)
  {
    if chatInit && rd.leadIn.Some? then CompletedLeadIn(rd.leadIn.value, h) else Ok([])
  }

  /** Both texts a role hands to `message_constructor` are JSON-safe. */
  predicate RoleSafe(prompt: string, rd: RoleDef, h: Host) {
    TextSafe(MessageCompleter(rd.system, "", h)) && FollowingSafe(Strip(prompt), rd, h)
  }

  /** Every text `prompt_constructor` hands to `message_constructor` is
      JSON-safe (see `MessageConstructor`). */
  predicate ConstructorSafe(prompt: string, role: Option<string>, roles: map<string, RoleDef>, h: Host) {
    RoleName(role) in roles ==> RoleSafe(prompt, roles[RoleName(role)], h)
  }

  /** The turn built from a role record that was found. */
  function AssembleFor(prompt: string, rd: RoleDef, chatInit: bool, h: Host): (r: Result<seq<Message>>)
    requires RoleSafe(prompt, rd, h)
    ensures r.Ok? ==>
      |r.value| == 2 + LeadInCount(rd, chatInit) &&
      r.value[0].role == System && Last(r.value).role == User
  {
    var system := MessageCompleter(rd.system, "", h);
    if system.Err? then Err(system.error)
    else
      var head := MessageConstructor(system.value, true, false, false).value;
      var lead := LeadInPart(rd, chatInit, h);
      if lead.Err? then Err(lead.error)
      else
        var user := FollowingPromptConstructor(Strip(prompt), rd, h);
        if user.Err? then Err(user.error)
        else Ok([head] + lead.value + [user.value])
  }

  /** `prompt_constructor(prompt, role, chat_init)`: the message list of a
      turn, or the first error the source raises while building it. */
  function Assemble(prompt: string, role: Option<string>, chatInit: bool,
                    roles: map<string, RoleDef>, h: Host): (r: Result<seq<Message>>)
    requires ConstructorSafe(prompt, role, roles, h)
    ensures RoleName(role) !in roles ==> r == Err(RoleNotFound(RoleName(role)))
    ensures r.Ok? ==>
      |r.value| == 2 + LeadInCount(roles[RoleName(role)], chatInit) &&
      r.value[0].role == System && Last(r.value).role == User
  {
    var name := RoleName(role);
    if name !in roles then Err(RoleNotFound(name))
    else AssembleFor(prompt, roles[name], chatInit, h)
  }

  lemma AssembleFound(prompt: string, role: Option<string>, chatInit: bool,
                      roles: map<string, RoleDef>, h: Host)
    requires ConstructorSafe(prompt, role, roles, h)
    requires RoleName(role) in roles
    ensures RoleSafe(prompt, roles[RoleName(role)], h)
    ensures Assemble(prompt, role, chatInit, roles, h) == AssembleFor(prompt, roles[RoleName(role)], chatInit, h)
  {
  }

  /** The `extend` step of `prompt_constructor`: the completed lead-in is
      appended when it is included, and its failure ends the turn. */
  method ExtendLeadIn(messages: seq<Message>, rd: RoleDef, chatInit: bool, h: Host)
    returns (r: Result<seq<Message>>)
    ensures LeadInPart(rd, chatInit, h).Err? ==> r == Err(LeadInPart(rd, chatInit, h).error)
    ensures LeadInPart(rd, chatInit, h).Ok? ==> r == Ok(messages + LeadInPart(rd, chatInit, h).value)
  {
    if chatInit && rd.leadIn.Some? {
      var completed := CompleteLeadIn(rd.leadIn.value, h);
      if completed.Err? {
        return Err(completed.error);
      }
      return Ok(messages + completed.value);
    }
    assert messages + [] == messages;
    r := Ok(messages);
  }

  /** `prompt_constructor` as the source writes it: the prompt is stripped,
      the role looked up, and the message list is started with the system
      message, extended with the completed lead-in when `chatInit` holds and
      the role has one, then appended the user message. */
  method PromptConstructor(prompt: string, role: Option<string>, chatInit: bool,
                           roles: map<string, RoleDef>, h: Host) returns (r: Result<seq<Message>>)
    requires ConstructorSafe(prompt, role, roles, h)
    ensures r == Assemble(prompt, role, chatInit, roles, h)
  {
    var p := Strip(prompt);
    var name := RoleName(role);
    if name !in roles {
      return Err(RoleNotFound(name));
    }
    var rd := roles[name];
    AssembleFound(prompt, role, chatInit, roles, h);
    var system := MessageCompleter(rd.system, "", h);
    if system.Err? {
      return Err(system.error);
    }
    var head := MessageConstructor(system.value, true, false, false).value;
    var messages := ExtendLeadIn([head], rd, chatInit, h);
    if messages.Err? {
      return messages;
    }
    var user := FollowingPromptConstructor(p, rd, h);
    if user.Err? {
      return Err(user.error);
    }
    r := Ok(messages.value + [user.value]);
  }

  // ---------------------------------------------------------------------
  // What prompt_constructor promises
  // ---------------------------------------------------------------------

  /** The three parts of a turn built from a found role record. */
  lemma AssembleForParts(prompt: string, rd: RoleDef, chatInit: bool, h: Host)
    requires RoleSafe(prompt, rd, h)
    requires AssembleFor(prompt, rd, chatInit, h).Ok?
    ensures var r := AssembleFor(prompt, rd, chatInit, h).value;
      MessageCompleter(rd.system, "", h) == Ok(r[0].content) &&
      LeadInPart(rd, chatInit, h) == Ok(r[1..|r| - 1]) &&
      FollowingPromptConstructor(Strip(prompt), rd, h) == Ok(Last(r))
  {
    var r := AssembleFor(prompt, rd, chatInit, h).value;
    var lead := LeadInPart(rd, chatInit, h).value;
    var user := FollowingPromptConstructor(Strip(prompt), rd, h).value;
    assert r == [r[0]] + lead + [user];
    assert r[1..|r| - 1] == lead;
  }

  /** Every lead-in entry a turn includes can be completed. */
  predicate LeadInCompletes(rd: RoleDef, chatInit: bool, h: Host) {
    chatInit && rd.leadIn.Some? ==>
      forall i :: 0 <= i < |rd.leadIn.value| ==> MessageCompleter(rd.leadIn.value[i].content, "", h).Ok?
  }

  /** `key` is a field of one of the templates a turn completes: the system
      message, an included lead-in entry, or the PROMPT_STRUCTURE. */
  predicate TurnMentions(rd: RoleDef, chatInit: bool, key: string) {
    Mentions(rd.system, key) ||
    (chatInit && rd.leadIn.Some? && exists i :: 0 <= i < |rd.leadIn.value| && Mentions(rd.leadIn.value[i].content, key)) ||
    (rd.structure.Some? && Mentions(rd.structure.value, key))
  }

  /** A found role's turn is built exactly when its system message, every
      included lead-in entry and its PROMPT_STRUCTURE (with the stripped
      prompt) can all be completed. */
  lemma AssembleForDefined(prompt: string, rd: RoleDef, chatInit: bool, h: Host)
    requires RoleSafe(prompt, rd, h)
    ensures AssembleFor(prompt, rd, chatInit, h).Ok? <==>
      MessageCompleter(rd.system, "", h).Ok? && LeadInCompletes(rd, chatInit, h) &&
      (rd.structure.Some? ==> MessageCompleter(rd.structure.value, Strip(prompt), h).Ok?)
  {
    StripIdempotent(prompt);
    if chatInit && rd.leadIn.Some? {
      CompletedLeadInDefined(rd.leadIn.value, h);
    }
  }

  /** A found role's turn fails only with the KeyError of a field that one
      of the completed templates uses. */
  lemma AssembleForError(prompt: string, rd: RoleDef, chatInit: bool, h: Host)
    requires RoleSafe(prompt, rd, h)
    requires AssembleFor(prompt, rd, chatInit, h).Err?
    ensures AssembleFor(prompt, rd, chatInit, h).error.MissingKey?
    ensures TurnMentions(rd, chatInit, AssembleFor(prompt, rd, chatInit, h).error.key)
  {
    var e := AssembleFor(prompt, rd, chatInit, h).error;
    var system := MessageCompleter(rd.system, "", h);
    if system.Err? {
      MessageCompleterDefined(rd.system, "", h);
    } else if LeadInPart(rd, chatInit, h).Err? {
      var lead := rd.leadIn.value;
      CompletedLeadInError(lead, h);
      var i :| 0 <= i < |lead| && MessageCompleter(lead[i].content, "", h) == Err(e);
      MessageCompleterDefined(lead[i].content, "", h);
      assert Mentions(lead[i].content, e.key);
    } else {
      StripIdempotent(prompt);
      MessageCompleterDefined(rd.structure.value, Strip(prompt), h);
    }
  }

  /** `prompt_constructor` succeeds exactly when the role exists and all of
      its completed templates have their fields; otherwise the error is
      the missing role or a KeyError of a field one of them uses. */
  lemma AssembleDefined(prompt: string, role: Option<string>, chatInit: bool,
                        roles: map<string, RoleDef>, h: Host)
    requires ConstructorSafe(prompt, role, roles, h)
    ensures Assemble(prompt, role, chatInit, roles, h).Ok? <==>
      RoleName(role) in roles &&
      var rd := roles[RoleName(role)];
      MessageCompleter(rd.system, "", h).Ok? && LeadInCompletes(rd, chatInit, h) &&
      (rd.structure.Some? ==> MessageCompleter(rd.structure.value, Strip(prompt), h).Ok?)
    ensures Assemble(prompt, role, chatInit, roles, h).Err? ==>
      var e := Assemble(prompt, role, chatInit, roles, h).error;
      (RoleName(role) !in roles && e == RoleNotFound(RoleName(role))) ||
      (RoleName(role) in roles && e.MissingKey? && TurnMentions(roles[RoleName(role)], chatInit, e.key))
  {
    if RoleName(role) in roles {
      var rd := roles[RoleName(role)];
      AssembleFound(prompt, role, chatInit, roles, h);
      AssembleForDefined(prompt, rd, chatInit, h);
      if AssembleFor(prompt, rd, chatInit, h).Err? {
        AssembleForError(prompt, rd, chatInit, h);
      }
    }
  }

  /** Without a PROMPT_STRUCTURE the user message's text is the stripped
      prompt itself; stripping in both `prompt_constructor` and
      `following_prompt_constructor` is the same as stripping once. */
  lemma UserTextVerbatim(prompt: string, rd: RoleDef, h: Host)
    requires rd.structure.None?
    requires FollowingSafe(Strip(prompt), rd, h)
    ensures FollowingPromptConstructor(Strip(prompt), rd, h) == Ok(Message(User, Strip(prompt)))
  {
    StripIdempotent(prompt);
  }

  /** With a PROMPT_STRUCTURE the user message's text is that structure
      completed with the stripped prompt. */
  lemma UserTextStructured(prompt: string, rd: RoleDef, h: Host)
    requires rd.structure.Some?
    requires FollowingSafe(Strip(prompt), rd, h)
    requires FollowingPromptConstructor(Strip(prompt), rd, h).Ok?
    ensures MessageCompleter(rd.structure.value, Strip(prompt), h) ==
            Ok(FollowingPromptConstructor(Strip(prompt), rd, h).value.content)
  {
    StripIdempotent(prompt);
  }

  /** The layout of a successful turn: the completed system message first,
      the lead-in part (if included) in the middle, and the user message
      built from the stripped prompt last. */
  lemma AssembleLayout(prompt: string, role: Option<string>, chatInit: bool,
                       roles: map<string, RoleDef>, h: Host)
    requires ConstructorSafe(prompt, role, roles, h)
    requires Assemble(prompt, role, chatInit, roles, h).Ok?
    ensures RoleName(role) in roles
    ensures var rd := roles[RoleName(role)];
      var r := Assemble(prompt, role, chatInit, roles, h).value;
      MessageCompleter(rd.system, "", h) == Ok(r[0].content) &&
      LeadInPart(rd, chatInit, h) == Ok(r[1..|r| - 1]) &&
      (rd.structure.None? ==> Last(r).content == Strip(prompt)) &&
      (rd.structure.Some? ==> MessageCompleter(rd.structure.value, Strip(prompt), h) == Ok(Last(r).content))
  {
    var rd := roles[RoleName(role)];
    AssembleFound(prompt, role, chatInit, roles, h);
    AssembleForParts(prompt, rd, chatInit, h);
    if rd.structure.None? {
      UserTextVerbatim(prompt, rd, h);
    } else {
      UserTextStructured(prompt, rd, h);
    }
  }

  /** Lead-in messages sit right after the system message, in the role's own
      order, each with its role unchanged and its content completed. */
  lemma LeadInPlacement(prompt: string, role: Option<string>,
                        roles: map<string, RoleDef>, h: Host, lead: seq<LeadIn>)
    requires ConstructorSafe(prompt, role, roles, h)
    requires Assemble(prompt, role, true, roles, h).Ok?
    requires RoleName(role) in roles && roles[RoleName(role)].leadIn == Some(lead)
    ensures var r := Assemble(prompt, role, true, roles, h).value;
      |r| == |lead| + 2 &&
      forall i :: 0 <= i < |lead| ==>
        r[i + 1].role == lead[i].role && MessageCompleter(lead[i].content, "", h) == Ok(r[i + 1].content)
  {
    AssembleLayout(prompt, role, true, roles, h);
    var r := Assemble(prompt, role, true, roles, h).value;
    var part := CompletedLeadIn(lead, h).value;
    CompletedLeadInElements(lead, h);
    assert part == r[1..|r| - 1];
    forall i | 0 <= i < |lead|
      ensures r[i + 1].role == lead[i].role && MessageCompleter(lead[i].content, "", h) == Ok(r[i + 1].content)
    {
      assert r[i + 1] == part[i];
    }
  }

  /** A role without lead-in messages (no CONVERSATION_LEAD_IN key, or an
      empty list) gives the same result whatever `chat_init` is. */
  lemma ChatInitWithoutLeadIn(prompt: string, role: Option<string>,
                              roles: map<string, RoleDef>, h: Host)
    requires ConstructorSafe(prompt, role, roles, h)
    requires RoleName(role) in roles ==>
      roles[RoleName(role)].leadIn == None || roles[RoleName(role)].leadIn == Some([])
    ensures Assemble(prompt, role, true, roles, h) == Assemble(prompt, role, false, roles, h)
  {
    if RoleName(role) in roles {
      var rd := roles[RoleName(role)];
      assert LeadInPart(rd, true, h) == LeadInPart(rd, false, h);
    }
  }

  /** For one role record: dropping the lead-in from a `chat_init=True`
      turn gives the `chat_init=False` turn. */
  lemma DropLeadInFor(prompt: string, rd: RoleDef, h: Host, lead: seq<LeadIn>)
    requires RoleSafe(prompt, rd, h)
    requires rd.leadIn == Some(lead)
    requires AssembleFor(prompt, rd, true, h).Ok?
    ensures var v := AssembleFor(prompt, rd, true, h).value;
      AssembleFor(prompt, rd, false, h) == Ok(v[..1] + v[1 + |lead|..])
  {
    var v := AssembleFor(prompt, rd, true, h).value;
    var head := v[0];
    var part := CompletedLeadIn(lead, h).value;
    var user := FollowingPromptConstructor(Strip(prompt), rd, h).value;
    assert v == [head] + part + [user];
    assert v[..1] + v[1 + |lead|..] == [head, user];
    AssembleForParts(prompt, rd, true, h);
    assert LeadInPart(rd, false, h) == Ok([]);
    assert FollowingPromptConstructor(Strip(prompt), rd, h) == Ok(user);
    assert MessageCompleter(rd.system, "", h).Ok?;
    assert AssembleFor(prompt, rd, false, h) == Ok([head] + [] + [user]);
    assert [head] + [] + [user] == [head, user];
  }

  /** For one role record: a `chat_init=False` turn with the completed
      lead-in put back after the system message is the `chat_init=True`
      turn. */
  lemma AddLeadInFor(prompt: string, rd: RoleDef, h: Host, lead: seq<LeadIn>)
    requires RoleSafe(prompt, rd, h)
    requires rd.leadIn == Some(lead)
    requires AssembleFor(prompt, rd, false, h).Ok? && CompletedLeadIn(lead, h).Ok?
    ensures var w := AssembleFor(prompt, rd, false, h).value;
      AssembleFor(prompt, rd, true, h) == Ok(w[..1] + CompletedLeadIn(lead, h).value + w[1..])
  {
    var w := AssembleFor(prompt, rd, false, h).value;
    var part := CompletedLeadIn(lead, h).value;
    assert w == [w[0]] + [] + [w[1]];
    assert w[..1] == [w[0]] && w[1..] == [w[1]];
  }

  /** With a lead-in, the `chat_init=False` turn is the `chat_init=True` turn
      with the lead-in removed, and conversely the `True` turn is the `False`
      turn with the completed lead-in put back after the system message. */
  lemma ChatInitDropsLeadIn(prompt: string, role: Option<string>,
                            roles: map<string, RoleDef>, h: Host, lead: seq<LeadIn>)
    requires ConstructorSafe(prompt, role, roles, h)
    requires RoleName(role) in roles && roles[RoleName(role)].leadIn == Some(lead)
    ensures var init := Assemble(prompt, role, true, roles, h);
      init.Ok? ==> Assemble(prompt, role, false, roles, h) == Ok(init.value[..1] + init.value[1 + |lead|..])
    ensures var next := Assemble(prompt, role, false, roles, h);
      next.Ok? && CompletedLeadIn(lead, h).Ok? ==>
        Assemble(prompt, role, true, roles, h) == Ok(next.value[..1] + CompletedLeadIn(lead, h).value + next.value[1..])
  {
    var rd := roles[RoleName(role)];
    AssembleFound(prompt, role, true, roles, h);
    AssembleFound(prompt, role, false, roles, h);
    if AssembleFor(prompt, rd, true, h).Ok? {
      DropLeadInFor(prompt, rd, h, lead);
    }
    if AssembleFor(prompt, rd, false, h).Ok? && CompletedLeadIn(lead, h).Ok? {
      AddLeadInFor(prompt, rd, h, lead);
    }
  }

  /** For one role record: when no included lead-in entry is a system
      message, no message after the first is one. */
  lemma SingleSystemMessageFor(prompt: string, rd: RoleDef, chatInit: bool, h: Host)
    requires RoleSafe(prompt, rd, h)
    requires AssembleFor(prompt, rd, chatInit, h).Ok?
    requires chatInit && rd.leadIn.Some? ==> forall e :: e in rd.leadIn.value ==> e.role != System
    ensures var r := AssembleFor(prompt, rd, chatInit, h).value;
      forall i :: 0 < i < |r| ==> r[i].role != System
  {
    AssembleForParts(prompt, rd, chatInit, h);
    var r := AssembleFor(prompt, rd, chatInit, h).value;
    forall i | 0 < i < |r| - 1
      ensures r[i].role != System
    {
      var lead := rd.leadIn.value;
      var part := CompletedLeadIn(lead, h).value;
      CompletedLeadInElements(lead, h);
      assert r[i] == r[1..|r| - 1][i - 1];
      assert r[i] == part[i - 1];
      assert lead[i - 1] in lead;
    }
  }

  /** When no lead-in entry included in the turn is itself a system message,
      the first message is the only system message. */
  lemma SingleSystemMessage(prompt: string, role: Option<string>, chatInit: bool,
                            roles: map<string, RoleDef>, h: Host)
    requires ConstructorSafe(prompt, role, roles, h)
    requires Assemble(prompt, role, chatInit, roles, h).Ok?
    requires var rd := roles[RoleName(role)];
      chatInit && rd.leadIn.Some? ==> forall e :: e in rd.leadIn.value ==> e.role != System
    ensures var r := Assemble(prompt, role, chatInit, roles, h).value;
      r[0].role == System && forall i :: 0 < i < |r| ==> r[i].role != System
  {
    AssembleFound(prompt, role, chatInit, roles, h);
    SingleSystemMessageFor(prompt, roles[RoleName(role)], chatInit, h);
  }

  /** The system message depends only on the role and the host: neither the
      prompt nor `chat_init` changes it. */
  lemma SystemMessageStable(p1: string, p2: string, role: Option<string>, c1: bool, c2: bool,
                            roles: map<string, RoleDef>, h: Host)
    requires ConstructorSafe(p1, role, roles, h) && ConstructorSafe(p2, role, roles, h)
    requires Assemble(p1, role, c1, roles, h).Ok? && Assemble(p2, role, c2, roles, h).Ok?
    ensures Assemble(p1, role, c1, roles, h).value[0] == Assemble(p2, role, c2, roles, h).value[0]
  {
    AssembleLayout(p1, role, c1, roles, h);
    AssembleLayout(p2, role, c2, roles, h);
  }

  /** A role whose PROMPT_STRUCTURE has a `{prompt}` field cannot be used
      with a prompt that strips to the empty text. */
  lemma EmptyPromptRejected(prompt: string, role: Option<string>, chatInit: bool,
                            roles: map<string, RoleDef>, h: Host)
    requires ConstructorSafe(prompt, role, roles, h)
    requires RoleName(role) in roles
    requires roles[RoleName(role)].structure.Some?
    requires Mentions(roles[RoleName(role)].structure.value, "prompt")
    requires Strip(prompt) == ""
    ensures Assemble(prompt, role, chatInit, roles, h).Err?
  {
    PromptFieldNeedsPrompt(roles[RoleName(role)].structure.value, h);
    StripIdempotent(prompt);
    AssembleFound(prompt, role, chatInit, roles, h);
  }
}
