/** The remote API as the destinations see it through `request`: every call
    is recorded, and its reply is the next one of a script given up front. */
module Remote {
  import opened Common

  /** A rejected request: the HTTP status of the error response, if there was one. */
  datatype RequestError = RequestError(status: Option<int>, message: string)

  datatype Reply<+T> = Ok(data: T) | Failed(error: RequestError)

  /** The error of a call made after the script has run out: no response at all. */
  const NoResponse := RequestError(None, "no response")

  /** The reply the next call receives. */
  function NextReply<T>(script: seq<Reply<T>>): (r: Reply<T>)
    ensures script != [] ==> r == script[0]
    ensures script == [] ==> r == Failed(NoResponse)
  {
    if script == [] then Failed(NoResponse) else script[0]
  }

  /** The script left once `n` calls have been answered. */
  function Drop<T>(script: seq<Reply<T>>, n: nat): (r: seq<Reply<T>>)
    ensures n <= |script| ==> r == script[n..]
    ensures n > |script| ==> r == []
  {
    if n <= |script| then script[n..] else []
  }

  /** Answering `a` calls and then `b` more leaves the script past `a + b` calls. */
  lemma DropDrop<T>(script: seq<Reply<T>>, a: nat, b: nat)
    ensures Drop(Drop(script, a), b) == Drop(script, a + b)
  {
    if a + b <= |script| {
      assert script[a..][b..] == script[a + b..];
    }
  }

  /** The `request` function passed to a destination, with scripted replies. */
  class ScriptedClient<Req, Resp> {
    var calls: seq<Req>
    var script: seq<Reply<Resp>>

    constructor (script: seq<Reply<Resp>>)
      ensures this.calls == [] && this.script == script
    {
      this.calls := [];
      this.script := script;
    }

    /** Issues `req`: it is appended to the log and answered by the script. */
    method Request(req: Req) returns (reply: Reply<Resp>)
      modifies this
      ensures calls == old(calls) + [req]
      ensures reply == NextReply(old(script))
      ensures script == Drop(old(script), 1)
    {
      calls := calls + [req];
      reply := NextReply(script);
      script := Drop(script, 1);
    }
  }
}
