/**
 * Connection establishment, `connect` (src/client.rs:47-69): the endpoint
 * address a Phoenix socket is opened on, and the order in which the
 * transport stages may fail.
 */
module Connection {
  import opened Wrappers
  import opened Errors

  /** The Phoenix protocol version the client speaks (src/client.rs:23). */
  const PhoenixVersion: string := "2.0.0"

  /** The socket route every Phoenix endpoint has, followed by the version query key. */
  const SocketRoute: string := "/websocket?vsn="

  /** One auth parameter, `(key, value)`. */
  type Param = (string, string)

  /** The query component one parameter contributes: `&key=value`. */
  function Component(p: Param): string
  {
    "&" + p.0 + "=" + p.1
  }

  /** A component is `&`, the key verbatim, `=`, the value verbatim, and nothing else. */
  lemma ComponentVerbatim(p: Param)
    ensures |Component(p)| == 2 + |p.0| + |p.1|
    ensures Component(p)[0] == '&' && Component(p)[1 + |p.0|] == '='
    ensures Component(p)[1..1 + |p.0|] == p.0 && Component(p)[2 + |p.0|..] == p.1
  {
  }

  /**
   * `params_uri` as the loop leaves it: the components of the parameters,
   * each appended at the end of what the earlier ones produced.
   */
  function ParamsUri(params: seq<Param>): string
  {
    if params == [] then ""
    else ParamsUri(params[..|params| - 1]) + Component(params[|params| - 1])
  }

  /** The address `connect` hands to the socket builder. */
  function BuildAddress(url: string, params: seq<Param>): string
  {
    url + SocketRoute + PhoenixVersion + ParamsUri(params)
  }

  /** The loop of `connect` that builds `params_uri`, then the final `format!`. */
  method ConnectAddress(url: string, params: seq<Param>) returns (addr: string)
    ensures addr == BuildAddress(url, params)
  {
    var paramsUri := "";
    for i := 0 to |params|
      invariant paramsUri == ParamsUri(params[..i])
    {
      var (k, v) := params[i];
      assert params[..i + 1][..i] == params[..i];
      paramsUri := paramsUri + ("&" + k + "=" + v);
    }
    assert params[..|params|] == params;
    addr := url + SocketRoute + PhoenixVersion + paramsUri;
  }

  /** The total length the parameters add: two separators plus key and value, per parameter. */
  function ParamsLength(params: seq<Param>): nat
  {
    if params == [] then 0 else 2 + |params[0].0| + |params[0].1| + ParamsLength(params[1..])
  }

  /** Building the params string distributes over concatenation of the parameter list. */
  lemma {:induction false} ParamsUriAppend(a: seq<Param>, b: seq<Param>)
    ensures ParamsUri(a + b) == ParamsUri(a) + ParamsUri(b)
    decreases |b|
  {
    if b == [] {
      assert a + b == a;
    } else {
      var n := |b| - 1;
      var ab := a + b;
      assert ab[..|ab| - 1] == a + b[..n];
      assert ab[|ab| - 1] == b[n];
      assert ParamsUri(ab) == ParamsUri(a + b[..n]) + Component(b[n]);
      assert ParamsUri(b) == ParamsUri(b[..n]) + Component(b[n]);
      ParamsUriAppend(a, b[..n]);
    }
  }

  /** Read from the front: the first parameter's component comes first, then the rest in order. */
  lemma ParamsUriCons(p: Param, rest: seq<Param>)
    ensures ParamsUri([p] + rest) == Component(p) + ParamsUri(rest)
  {
    ParamsUriAppend([p], rest);
    assert [p][..0] == [];
  }

  /** Each parameter contributes exactly its two separators, its key and its value. */
  lemma {:induction false} ParamsUriLength(params: seq<Param>)
    ensures |ParamsUri(params)| == ParamsLength(params)
  {
    if params != [] {
      ParamsUriCons(params[0], params[1..]);
      assert [params[0]] + params[1..] == params;
      ParamsUriLength(params[1..]);
    }
  }

  /** With no parameters the address is the base URL, the route and the version, and nothing after. */
  lemma NoParamsAddress(url: string)
    ensures BuildAddress(url, []) == url + "/websocket?vsn=2.0.0"
  {
  }

  /** The address `connect("wss://host", [("token", "abc")])` opens. */
  lemma TokenAddressExample()
    ensures BuildAddress("wss://host", [("token", "abc")]) == "wss://host/websocket?vsn=2.0.0&token=abc"
  {
    var params := [("token", "abc")];
    assert params[..0] == [];
    assert ParamsUri(params) == "&token=abc";
    assert BuildAddress("wss://host", params) == "wss://host" + "/websocket?vsn=" + "2.0.0" + "&token=abc";
  }

  /** The address starts with the base URL and has exactly the length its parts add up to. */
  lemma AddressShape(url: string, params: seq<Param>)
    ensures |BuildAddress(url, params)| == |url| + |SocketRoute| + |PhoenixVersion| + ParamsLength(params)
    ensures BuildAddress(url, params)[..|url|] == url
    ensures BuildAddress(url, params)[|url|..|url| + 20] == "/websocket?vsn=2.0.0"
  {
    ParamsUriLength(params);
  }

  /** Where parameter `i` starts in the address. */
  function ParamOffset(url: string, params: seq<Param>, i: nat): nat
    requires i <= |params|
  {
    |url| + |SocketRoute| + |PhoenixVersion| + ParamsLength(params[..i])
  }

  /**
   * Parameters appear in caller order and verbatim: the address holds
   * `&key=value` of parameter `i` right after those of parameters `0..i`.
   */
  lemma ParamInPlace(url: string, params: seq<Param>, i: nat)
    requires i < |params|
    ensures ParamOffset(url, params, i) + |Component(params[i])| <= |BuildAddress(url, params)|
    ensures BuildAddress(url, params)[ParamOffset(url, params, i)..ParamOffset(url, params, i) + |Component(params[i])|]
            == Component(params[i])
  {
    ParamsUriSplit(params, i);
    ParamsUriLength(params[..i]);
    var head := url + SocketRoute + PhoenixVersion + ParamsUri(params[..i]);
    assert BuildAddress(url, params) == head + Component(params[i]) + ParamsUri(params[i + 1..]);
    MiddleOfConcat(head, Component(params[i]), ParamsUri(params[i + 1..]));
  }

  /** The params string around parameter `i`: those before it, its own component, those after it. */
  lemma ParamsUriSplit(params: seq<Param>, i: nat)
    requires i < |params|
    ensures ParamsUri(params) == ParamsUri(params[..i]) + Component(params[i]) + ParamsUri(params[i + 1..])
  {
    var before, rest := params[..i], params[i + 1..];
    var from := [params[i]] + rest;
    SplitAt(params, i);
    ParamsUriAppend(before, from);
    ParamsUriCons(params[i], rest);
  }

  lemma SplitAt(params: seq<Param>, i: nat)
    requires i < |params|
    ensures params == params[..i] + ([params[i]] + params[i + 1..])
  {
  }

  lemma MiddleOfConcat(a: string, b: string, c: string)
    ensures (a + b + c)[|a|..|a| + |b|] == b
  {
  }

  /** No escaping: distinct parameter lists can give the same address once a value holds `&` and `=`. */
  lemma NoEscapingCollision()
    ensures [("a", "b&c=d")] != [("a", "b"), ("c", "d")]
    ensures BuildAddress("wss://host", [("a", "b&c=d")]) == BuildAddress("wss://host", [("a", "b"), ("c", "d")])
  {
    ParamsUriCons(("a", "b&c=d"), []);
    ParamsUriCons(("a", "b"), [("c", "d")]);
    ParamsUriCons(("c", "d"), []);
  }

  // ---------------------------------------------------------------------
  // Reading the parameters back, as a server splitting the query would.
  // ---------------------------------------------------------------------

  /** The longest prefix of `s` that does not contain `c`. */
  function TakeUntil(s: string, c: char): (r: string)
    ensures |r| <= |s| && r == s[..|r|]
    ensures c !in r
    ensures |r| < |s| ==> s[|r|] == c
  {
    if s == [] || s[0] == c then "" else [s[0]] + TakeUntil(s[1..], c)
  }

  lemma {:induction false} TakeUntilAppend(a: string, b: string, c: char)
    requires c !in a
    ensures TakeUntil(a + b, c) == a + TakeUntil(b, c)
  {
    if a != [] {
      assert (a + b)[1..] == a[1..] + b;
      TakeUntilAppend(a[1..], b, c);
    } else {
      assert a + b == b;
    }
  }

  /** The key and value of one segment: up to its first `=`, and after it. */
  function SplitSegment(segment: string): Param
  {
    var key := TakeUntil(segment, '=');
    (key, if |key| < |segment| then segment[|key| + 1..] else "")
  }

  /** Splits `&k1=v1&k2=v2...` into its pairs: each `&` starts a pair, its first `=` ends the key. */
  function ParseParams(s: string): seq<Param>
    decreases |s|
  {
    if s == [] || s[0] != '&' then []
    else
      var segment := TakeUntil(s[1..], '&');
      [SplitSegment(segment)] + ParseParams(s[1 + |segment|..])
  }

  /** A parameter the query string can carry unambiguously: no separator in the key, no `&` in the value. */
  predicate Unambiguous(p: Param)
  {
    '&' !in p.0 && '=' !in p.0 && '&' !in p.1
  }

  lemma SegmentOfComponent(p: Param, tail: string)
    requires '&' !in p.0 + "=" + p.1
    requires tail == [] || tail[0] == '&'
    ensures TakeUntil((Component(p) + tail)[1..], '&') == p.0 + "=" + p.1
  {
    assert (Component(p) + tail)[1..] == (p.0 + "=" + p.1) + tail;
    TakeUntilAppend(p.0 + "=" + p.1, tail, '&');
  }

  lemma KeyOfSegment(p: Param)
    requires '=' !in p.0
    ensures TakeUntil(p.0 + "=" + p.1, '=') == p.0
  {
    assert p.0 + "=" + p.1 == p.0 + ("=" + p.1);
    TakeUntilAppend(p.0, "=" + p.1, '=');
  }

  /** Reading one unambiguous component off the front of the query string. */
  lemma ParseComponent(p: Param, tail: string)
    requires Unambiguous(p)
    requires tail == [] || tail[0] == '&'
    ensures ParseParams(Component(p) + tail) == [p] + ParseParams(tail)
  {
    var s := Component(p) + tail;
    var segment := p.0 + "=" + p.1;
    assert '&' !in segment;
    SegmentOfComponent(p, tail);
    KeyOfSegment(p);
    assert segment[|p.0| + 1..] == p.1;
    assert s[1 + |segment|..] == tail;
  }

  /** When no separator occurs inside a key (nor `&` inside a value), the parameters read back exactly. */
  lemma {:induction false} ParamsRoundTrip(params: seq<Param>)
    requires forall i :: 0 <= i < |params| ==> Unambiguous(params[i])
    ensures ParseParams(ParamsUri(params)) == params
    decreases |params|
  {
    if params != [] {
      var p, rest := params[0], params[1..];
      assert [p] + rest == params;
      ParamsUriCons(p, rest);
      if rest != [] {
        ParamsUriCons(rest[0], rest[1..]);
        assert [rest[0]] + rest[1..] == rest;
      }
      ParseComponent(p, ParamsUri(rest));
      ParamsRoundTrip(rest);
    }
  }

  lemma SplitSegmentUnambiguous(segment: string)
    requires '&' !in segment
    ensures Unambiguous(SplitSegment(segment))
  {
    var (key, value) := SplitSegment(segment);
    forall j | 0 <= j < |key| ensures key[j] != '&' { assert key[j] == segment[j]; }
    forall j | 0 <= j < |value| ensures value[j] != '&' { assert value[j] == segment[|key| + 1 + j]; }
  }

  /** Every pair the parser yields is one the query string can carry unambiguously. */
  lemma {:induction false} ParsedAreUnambiguous(s: string)
    ensures forall i :: 0 <= i < |ParseParams(s)| ==> Unambiguous(ParseParams(s)[i])
    decreases |s|
  {
    if s != [] && s[0] == '&' {
      var segment := TakeUntil(s[1..], '&');
      var rest := s[1 + |segment|..];
      var tail := ParseParams(rest);
      assert ParseParams(s) == [SplitSegment(segment)] + tail;
      SplitSegmentUnambiguous(segment);
      ParsedAreUnambiguous(rest);
      forall i | 0 <= i < |ParseParams(s)| ensures Unambiguous(ParseParams(s)[i]) {
        if i > 0 {
          assert ParseParams(s)[i] == tail[i - 1];
        }
      }
    }
  }

  /** The parameters read back exactly if and only if no key holds `&` or `=` and no value holds `&`. */
  lemma ParamsRoundTripExactly(params: seq<Param>)
    ensures ParseParams(ParamsUri(params)) == params
            <==> forall i :: 0 <= i < |params| ==> Unambiguous(params[i])
  {
    if forall i :: 0 <= i < |params| ==> Unambiguous(params[i]) {
      ParamsRoundTrip(params);
    }
    ParsedAreUnambiguous(ParamsUri(params));
  }

  // ---------------------------------------------------------------------
  // Opening the socket.
  // ---------------------------------------------------------------------

  /**
   * The transport part of `connect` (src/client.rs:60-68). The socket library
   * is not modelled; its three stages are parameters: `parse` builds a client
   * for an address, `upgrade` performs the insecure websocket handshake and
   * `split` yields the read and write halves. Each `?` returns the first
   * failure unchanged; on success the halves are wrapped as (sender, receiver).
   */
  function Connect<B, C, H>(
    url: string, params: seq<Param>,
    parse: string -> Result<B, ConnectError>,
    upgrade: B -> Result<C, ConnectError>,
    split: C -> Result<H, ConnectError>): (r: Result<H, ConnectError>)
    ensures var built := parse(BuildAddress(url, params));
            built.Err? ==> r == Err(built.error)
    ensures var built := parse(BuildAddress(url, params));
            built.Ok? && upgrade(built.value).Err? ==> r == Err(upgrade(built.value).error)
    ensures var built := parse(BuildAddress(url, params));
            built.Ok? && upgrade(built.value).Ok? ==> r == split(upgrade(built.value).value)
    ensures var built := parse(BuildAddress(url, params));
            r.Ok? ==> built.Ok? && upgrade(built.value).Ok? && split(upgrade(built.value).value).Ok?
  {
    match parse(BuildAddress(url, params))
    case Err(e) => Err(e)
    case Ok(builder) =>
      match upgrade(builder)
      case Err(e) => Err(e)
      case Ok(socket) => split(socket)
  }

  /** An address the builder rejects never reaches the handshake or the split. */
  lemma RejectedAddressStopsConnect<B, C, H>(
    url: string, params: seq<Param>,
    parse: string -> Result<B, ConnectError>,
    upgrade1: B -> Result<C, ConnectError>, upgrade2: B -> Result<C, ConnectError>,
    split1: C -> Result<H, ConnectError>, split2: C -> Result<H, ConnectError>)
    requires parse(BuildAddress(url, params)).Err?
    ensures Connect(url, params, parse, upgrade1, split1) == Connect(url, params, parse, upgrade2, split2)
  {
  }
}
