/**
 * The network as the portals see it: requests, responses, decoded JSON, and a
 * client session that records what was sent and how often it was closed.
 * The remote portal is a `Server` value that answers each URL with a fixed response.
 */
module Http {
  import opened Wrappers

  type Headers = map<string, string>
  type Cookies = map<string, string>

  /**
   * A decoded JSON document. `Num` keeps the text Python's `str()` gives the number.
   */
  datatype Json =
    | Null
    | Bool(b: bool)
    | Num(text: string)
    | Str(s: string)
    | Arr(items: seq<Json>)
    | Obj(fields: map<string, Json>)

  datatype Verb = Get | Post

  datatype Body = NoBody | Text(text: string) | JsonBody(document: Json)

  datatype Request = Request(verb: Verb, url: string, headers: Headers, body: Body)

  /**
   * What the client learns from one response: whether `raise_for_status` lets it
   * through, the cookies it sets, the `<input>` elements of its HTML page by name
   * (with the `value` attribute when there is one), and its body decoded as JSON
   * when it is JSON.
   */
  datatype Response = Response(
    ok: bool,
    setCookies: Cookies,
    inputs: map<string, Option<string>>,
    json: Option<Json>)

  /** The remote side: a fixed response per URL; any other URL is answered 404. */
  datatype Server = Server(replies: map<string, Response>)

  const NotFound := Response(false, map[], map[], None)

  function Reply(server: Server, url: string): (r: Response)
    ensures url !in server.replies ==> !r.ok
  {
    if url in server.replies then server.replies[url] else NotFound
  }

  /** The cookie jar after sending `sent`, in order, starting from `jar`. */
  function JarAfter(jar: Cookies, server: Server, sent: seq<Request>): Cookies
  {
    if sent == [] then jar
    else JarAfter(jar, server, sent[..|sent| - 1]) + Reply(server, sent[|sent| - 1].url).setCookies
  }

  lemma JarAfterOne(jar: Cookies, server: Server, r: Request)
    ensures JarAfter(jar, server, [r]) == jar + Reply(server, r.url).setCookies
  {
    assert [r][..0] == [];
  }

  /** Sending `a` and then `b` leaves the jar that sending `a + b` leaves. */
  lemma {:induction false} JarAfterAppend(jar: Cookies, server: Server, a: seq<Request>, b: seq<Request>)
    ensures JarAfter(jar, server, a + b) == JarAfter(JarAfter(jar, server, a), server, b)
  {
    if b == [] {
      assert a + b == a;
    } else {
      var init := b[..|b| - 1];
      assert (a + b)[..|a + b| - 1] == a + init;
      assert (a + b)[|a + b| - 1] == b[|b| - 1];
      JarAfterAppend(jar, server, a, init);
    }
  }

  /** An `aiohttp.ClientSession`: a cookie jar, the log of requests sent, and a close counter. */
  class ClientSession {
    const server: Server
    var jar: Cookies
    var sent: seq<Request>
    var closeCalls: nat

    constructor (server: Server)
      ensures this.server == server
      ensures jar == map[] && sent == [] && closeCalls == 0
    {
      this.server := server;
      jar := map[];
      sent := [];
      closeCalls := 0;
    }

    predicate IsOpen()
      reads this
    {
      closeCalls == 0
    }

    /** Sends `r`, stores the cookies its response sets in the jar, and returns the response. */
    method Send(r: Request) returns (resp: Response)
      requires IsOpen()
      modifies this
      ensures resp == Reply(server, r.url)
      ensures sent == old(sent) + [r]
      ensures jar == old(jar) + resp.setCookies
      ensures closeCalls == old(closeCalls)
    {
      resp := Reply(server, r.url);
      sent := sent + [r];
      jar := jar + resp.setCookies;
    }

    method Close()
      modifies this
      ensures closeCalls == old(closeCalls) + 1
      ensures sent == old(sent) && jar == old(jar)
    {
      closeCalls := closeCalls + 1;
    }
  }
}
