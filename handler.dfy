/** The turn driver shared by every handler (sgpt/handlers/handler.py):
    the completion request is forwarded to the client unchanged, and the
    fragments it streams back are echoed one by one and accumulated into
    the full completion.

    The client is a total function from the request to the stream it
    answers with; a stream is the fragments it yields followed, possibly,
    by the error it raises after them (an HTTP failure or an interruption
    of the consumer both end the stream there). */
module Handler {
  import opened Common

  /** The keyword arguments `handle` forwards to the client. Sampling
      parameters are passed through and never inspected. */
  datatype Params = Params(model: string, temperature: real, topProbability: real, caching: bool)

  /** What the client receives: the messages and the sampling parameters. */
  datatype Request = Request(messages: seq<Message>, params: Params)

  /** What the client yields: fragments in arrival order, then either the
      normal end of the stream or the error raised after the last one. */
  datatype Stream = Stream(fragments: seq<string>, failure: Option<Error>)

  type Client = Request -> Stream

  /** The in-order concatenation of a sequence of fragments. */
  function Concat(fragments: seq<string>): (s: string)
    ensures fragments == [] ==> s == ""
    ensures fragments != [] ==> |fragments[0]| <= |s| && s[..|fragments[0]|] == fragments[0]
    decreases |fragments|
  {
    if fragments == [] then "" else fragments[0] + Concat(fragments[1..])
  }

  /** Appending one fragment appends its text: the step `full_completion +=
      word` keeps the accumulator equal to the concatenation so far. */
  lemma {:induction false} ConcatAppend(fragments: seq<string>, word: string)
    ensures Concat(fragments + [word]) == Concat(fragments) + word
    decreases |fragments|
  {
    if fragments != [] {
      assert (fragments + [word])[1..] == fragments[1..] + [word];
      ConcatAppend(fragments[1..], word);
    }
  }

  /** Concatenation distributes over splitting the fragment sequence: what a
      consumer has read after any prefix of the stream is a prefix of the
      full completion. */
  lemma {:induction false} ConcatSplit(a: seq<string>, b: seq<string>)
    ensures Concat(a + b) == Concat(a) + Concat(b)
    decreases |a|
  {
    if a != [] {
      assert (a + b)[1..] == a[1..] + b;
      ConcatSplit(a[1..], b);
    } else {
      assert a + b == b;
    }
  }

  /** The base handler's `get_messages`: every concrete handler overrides it,
      the base one always raises NotImplementedError. */
  function BaseGetMessages(): (r: Result<seq<Message>>)
    ensures r.Err? && r.error == NotImplemented
  {
    Err(NotImplemented)
  }

  /** `get_completion`: the messages and every keyword argument reach the
      client unchanged, and the client's stream is passed on unchanged. */
  method GetCompletion(client: Client, messages: seq<Message>, params: Params)
    returns (sent: Request, out: Stream)
    ensures sent.messages == messages && sent.params == params
    ensures out == client(sent)
  {
    sent := Request(messages, params);
    out := client(sent);
  }

  /** The loop of `handle`: each fragment is echoed before the next one is
      consumed and appended to `full_completion`; the completion is returned
      only when the stream ends normally, otherwise its error propagates. */
  method Drain(s: Stream) returns (trace: seq<string>, r: Result<string>)
    ensures trace == s.fragments
    ensures s.failure.None? ==> r == Ok(Concat(s.fragments))
    ensures s.failure.Some? ==> r == Err(s.failure.value)
  {
    var full := "";
    trace := [];
    var i := 0;
    while i < |s.fragments|
      invariant 0 <= i <= |s.fragments|
      invariant trace == s.fragments[..i]
      invariant full == Concat(s.fragments[..i])
    {
      var word := s.fragments[i];
      trace := trace + [word];
      ConcatAppend(s.fragments[..i], word);
      assert s.fragments[..i + 1] == s.fragments[..i] + [word];
      full := full + word;
      i := i + 1;
    }
    assert s.fragments[..i] == s.fragments;
    if s.failure.Some? {
      return trace, Err(s.failure.value);
    }
    r := Ok(full);
  }

  /** `handle(**kwargs)`: `get_messages` is called once (its result is
      `messages`); when it raises, nothing is sent and nothing echoed.
      Otherwise exactly that list goes to the client with the keyword
      arguments, every fragment is echoed in order, and the result is the
      concatenation of all of them. */
  method Handle(messages: Result<seq<Message>>, client: Client, params: Params)
    returns (sent: Option<Request>, trace: seq<string>, r: Result<string>)
    ensures messages.Err? ==> sent == None && trace == [] && r == Err(messages.error)
    ensures messages.Ok? ==> sent == Some(Request(messages.value, params))
    ensures sent.Some? ==> trace == client(sent.value).fragments
    ensures sent.Some? && client(sent.value).failure.None? ==> r == Ok(Concat(trace))
    ensures sent.Some? && client(sent.value).failure.Some? ==> r == Err(client(sent.value).failure.value)
  {
    if messages.Err? {
      return None, [], Err(messages.error);
    }
    var request, stream := GetCompletion(client, messages.value, params);
    sent := Some(request);
    trace, r := Drain(stream);
  }
}
