/** Two batch-API command strategies: `ActivateClientCommandStrategy` and
    `UpdateClientCommandStrategy`. Each copies the request id and headers
    into the response, reads the client id out of the relative URL, calls the
    clients resource, and answers 200 with the resource's body, or the status
    and message the error handler maps a runtime exception to. The client id
    is read BEFORE the guarded call, so a malformed URL is not mapped: its
    exception leaves `execute`. */
module BatchClient {
  import opened Results
  import opened Numerals

  datatype Header = Header(name: string, value: string)

  datatype BatchRequest = BatchRequest(requestId: int, relativeUrl: string, headers: seq<Header>, body: string)

  datatype BatchResponse = BatchResponse(requestId: int, statusCode: int, headers: seq<Header>, body: string)

  /** The exceptions reading the id can raise. */
  datatype UrlError =
    | ArrayIndexOutOfBounds
    | StringIndexOutOfBounds
    | NumberFormat(input: string)

  /** A runtime exception the clients resource raised, as the error handler
      sees it. */
  datatype RuntimeFailure = RuntimeFailure(kind: string, message: string)

  /** What a call into the clients resource did. */
  datatype Outcome = Returned(body: string) | Threw(failure: RuntimeFailure)

  /** `ErrorHandler.handler`'s answer. */
  datatype ErrorInfo = ErrorInfo(statusCode: int, message: string)

  // ---------------------------------------------------------------------------
  // String operations

  /** `String.indexOf(c)`: the first position of `c`, or -1. */
  function IndexOf(s: string, c: char): (i: int)
    ensures -1 <= i < |s|
    ensures i >= 0 ==> s[i] == c
    ensures forall j :: 0 <= j < (if i < 0 then |s| else i) ==> s[j] != c
  {
    if |s| == 0 then -1
    else if s[0] == c then 0
    else
      var j := IndexOf(s[1..], c);
      if j < 0 then -1 else j + 1
  }

  /** Every piece between separators, empty ones included. */
  function Pieces(s: string): (ps: seq<string>)
    ensures |ps| >= 1
    decreases |s|
  {
    var i := IndexOf(s, '/');
    if i < 0 then [s] else [s[..i]] + Pieces(s[i + 1..])
  }

  /** Pieces joined back with the separator. */
  function Join(ps: seq<string>): string
  {
    if |ps| == 0 then ""
    else if |ps| == 1 then ps[0]
    else ps[0] + "/" + Join(ps[1..])
  }

  /** Drops the empty pieces at the end. */
  function DropTrailingEmpty(ps: seq<string>): (r: seq<string>)
    ensures |r| <= |ps| && r == ps[..|r|]
    ensures |r| > 0 ==> r[|r| - 1] != ""
    ensures forall k :: |r| <= k < |ps| ==> ps[k] == ""
  {
    if |ps| == 0 then []
    else if ps[|ps| - 1] == "" then DropTrailingEmpty(ps[..|ps| - 1])
    else ps
  }

  /** `String.split("/")`: a string without a separator is its own single
      piece (even when empty); otherwise the pieces, with trailing empty ones
      dropped. */
  function Split(s: string): seq<string>
  {
    if '/' !in s then [s] else DropTrailingEmpty(Pieces(s))
  }

  // ---------------------------------------------------------------------------
  // Reading the client id

  function ParseId(s: string): Result<int, UrlError>
  {
    match ParseLong(s)
    case Ok(v) => Ok(v)
    case Err(_) => Err(NumberFormat(s))
  }

  /** The activate strategy's id: the second `/`-piece, cut at its first `?`. */
  function ActivateClientId(url: string): (r: Result<int, UrlError>)
    ensures |Split(url)| < 2 ==> r == Err(ArrayIndexOutOfBounds)
    ensures |Split(url)| >= 2 && '?' !in Split(url)[1] ==> r == Err(StringIndexOutOfBounds)
    ensures r.Ok? ==> LONG_MIN <= r.value <= LONG_MAX
  {
    var parts := Split(url);
    if |parts| < 2 then Err(ArrayIndexOutOfBounds)
    else
      var q := IndexOf(parts[1], '?');
      if q < 0 then Err(StringIndexOutOfBounds)
      else ParseId(parts[1][..q])
  }

  /** The update strategy's id: everything after the first `/` (the whole
      URL when there is none). */
  function UpdateClientId(url: string): (r: Result<int, UrlError>)
    ensures '/' !in url ==> r == ParseId(url)
    ensures r.Ok? ==> LONG_MIN <= r.value <= LONG_MAX
  {
    ParseId(url[IndexOf(url, '/') + 1..])
  }

  // ---------------------------------------------------------------------------
  // The strategies

  /** The response for one outcome of the resource call. */
  function Respond(request: BatchRequest, outcome: Outcome, handler: RuntimeFailure -> ErrorInfo): (resp: BatchResponse)
    ensures resp.requestId == request.requestId && resp.headers == request.headers
    ensures outcome.Returned? ==> resp.statusCode == 200 && resp.body == outcome.body
    ensures outcome.Threw? ==>
              resp.statusCode == handler(outcome.failure).statusCode
              && resp.body == handler(outcome.failure).message
  {
    match outcome
    case Returned(body) => BatchResponse(request.requestId, 200, request.headers, body)
    case Threw(f) =>
      var info := handler(f);
      BatchResponse(request.requestId, info.statusCode, request.headers, info.message)
  }

  /** `ActivateClientCommandStrategy.execute`: `activate(clientId, "activate", body)`. */
  function ExecuteActivate(request: BatchRequest, activate: (int, string, string) -> Outcome,
                           handler: RuntimeFailure -> ErrorInfo): (r: Result<BatchResponse, UrlError>)
    ensures ActivateClientId(request.relativeUrl).Err? <==> r.Err?
    ensures r.Err? ==> r.error == ActivateClientId(request.relativeUrl).error
    ensures r.Ok? ==>
              var outcome := activate(ActivateClientId(request.relativeUrl).value, "activate", request.body);
              && r.value.requestId == request.requestId && r.value.headers == request.headers
              && (outcome.Returned? ==> r.value.statusCode == 200 && r.value.body == outcome.body)
              && (outcome.Threw? ==> r.value.statusCode == handler(outcome.failure).statusCode
                                      && r.value.body == handler(outcome.failure).message)
  {
    var clientId :- ActivateClientId(request.relativeUrl);
    Ok(Respond(request, activate(clientId, "activate", request.body), handler))
  }

  /** `UpdateClientCommandStrategy.execute`: `update(clientId, body)`. */
  function ExecuteUpdate(request: BatchRequest, update: (int, string) -> Outcome,
                         handler: RuntimeFailure -> ErrorInfo): (r: Result<BatchResponse, UrlError>)
    ensures UpdateClientId(request.relativeUrl).Err? <==> r.Err?
    ensures r.Err? ==> r.error == UpdateClientId(request.relativeUrl).error
    ensures r.Ok? ==>
              var outcome := update(UpdateClientId(request.relativeUrl).value, request.body);
              && r.value.requestId == request.requestId && r.value.headers == request.headers
              && (outcome.Returned? ==> r.value.statusCode == 200 && r.value.body == outcome.body)
              && (outcome.Threw? ==> r.value.statusCode == handler(outcome.failure).statusCode
                                      && r.value.body == handler(outcome.failure).message)
  {
    var clientId :- UpdateClientId(request.relativeUrl);
    Ok(Respond(request, update(clientId, request.body), handler))
  }

  // ---------------------------------------------------------------------------
  // Properties

  /** Splitting loses nothing: joining the pieces gives the string back. */
  lemma {:induction false} PiecesJoin(s: string)
    ensures Join(Pieces(s)) == s
    decreases |s|
  {
    var i := IndexOf(s, '/');
    if i >= 0 {
      PiecesStep(s, i);
      JoinCons(s[..i], Pieces(s[i + 1..]));
      PiecesJoin(s[i + 1..]);
    }
  }

  /** One unfolding of `Pieces` at the first separator. */
  lemma PiecesStep(s: string, i: int)
    requires 0 <= i == IndexOf(s, '/')
    ensures Pieces(s) == [s[..i]] + Pieces(s[i + 1..])
    ensures s == s[..i] + "/" + s[i + 1..]
  {
    assert s == s[..i] + [s[i]] + s[i + 1..];
  }

  lemma JoinCons(a: string, rest: seq<string>)
    requires |rest| >= 1
    ensures Join([a] + rest) == a + "/" + Join(rest)
  {
    assert ([a] + rest)[1..] == rest;
  }

  /** The pieces of `a + "/" + b` when `a` has no separator. */
  lemma PiecesOfSeparated(a: string, b: string)
    requires '/' !in a
    ensures Pieces(a + "/" + b) == [a] + Pieces(b)
  {
    var s := a + "/" + b;
    assert s[..|a|] == a;
    assert s[|a|] == '/';
    assert IndexOf(s, '/') == |a|;
    assert s[|a| + 1..] == b;
  }

  /** A non-empty piece survives the dropping of trailing empty ones. */
  lemma SplitKeepsNonEmpty(s: string, k: nat)
    requires '/' in s && k < |Pieces(s)| && Pieces(s)[k] != ""
    ensures k < |Split(s)| && Split(s)[k] == Pieces(s)[k]
  {
  }

  predicate IdChar(c: char)
  {
    IsDigit(c) || c == '-'
  }

  lemma IntToStringChars(n: int)
    ensures forall k :: 0 <= k < |IntToString(n)| ==> IdChar(IntToString(n)[k])
  {
    var s := IntToString(n);
    if n < 0 {
      forall k | 0 <= k < |s| ensures IdChar(s[k]) {
        if k > 0 { assert s[k] == s[1..][k - 1]; }
      }
    }
  }

  /** A written id holds neither a separator nor a query mark. */
  lemma IdHasNoDelimiters(n: int)
    ensures '/' !in IntToString(n) && '?' !in IntToString(n)
  {
    var t := IntToString(n);
    IntToStringChars(n);
    forall k | 0 <= k < |t| ensures t[k] != '/' && t[k] != '?' { assert IdChar(t[k]); }
  }

  /** The first piece of `t + "?" + query` is `t`, a query mark, then the
      query up to its first separator. */
  lemma FirstPieceCutsAtQuery(t: string, query: string)
    requires '/' !in t && '?' !in t
    ensures var first := Pieces(t + "?" + query)[0];
            |t| < |first| && IndexOf(first, '?') == |t| && first[..|t|] == t
  {
    var rest := t + "?" + query;
    var j := IndexOf(rest, '/');
    var first := Pieces(rest)[0];
    assert first == (if j < 0 then rest else rest[..j]);
    assert rest[|t|] == '?' && rest[..|t|] == t;
    assert j < 0 || j > |t|;
    assert first[..|t|] == t && first[|t|] == '?';
  }

  /** An id written between the first separator and a query is read back. */
  lemma ActivateReadsWrittenId(prefix: string, n: int, query: string)
    requires '/' !in prefix
    requires LONG_MIN <= n <= LONG_MAX
    ensures ActivateClientId(prefix + "/" + IntToString(n) + "?" + query) == Ok(n)
  {
    var t := IntToString(n);
    IdHasNoDelimiters(n);
    var url := prefix + "/" + t + "?" + query;
    var rest := t + "?" + query;
    assert url == prefix + "/" + rest;
    PiecesOfSeparated(prefix, rest);
    FirstPieceCutsAtQuery(t, query);
    assert '/' in url by { assert url[|prefix|] == '/'; }
    SplitKeepsNonEmpty(url, 1);
    assert Split(url)[1] == Pieces(rest)[0];
    ParseLongIntToString(n);
  }

  /** Without a query the second piece has no `?`, and the cut fails. */
  lemma ActivateWithoutQueryFails(prefix: string, id: string)
    requires '/' !in prefix && '/' !in id && '?' !in id && id != ""
    ensures ActivateClientId(prefix + "/" + id) == Err(StringIndexOutOfBounds)
  {
    var url := prefix + "/" + id;
    PiecesOfSeparated(prefix, id);
    assert Pieces(id) == [id];
    assert '/' in url by { assert url[|prefix|] == '/'; }
    SplitKeepsNonEmpty(url, 1);
  }

  /** A URL with no separator has one piece only. */
  lemma ActivateWithoutSeparatorFails(url: string)
    requires '/' !in url
    ensures ActivateClientId(url) == Err(ArrayIndexOutOfBounds)
  {
  }

  /** The update strategy reads back an id written after the first separator. */
  lemma UpdateReadsWrittenId(prefix: string, n: int)
    requires '/' !in prefix
    requires LONG_MIN <= n <= LONG_MAX
    ensures UpdateClientId(prefix + "/" + IntToString(n)) == Ok(n)
  {
    var url := prefix + "/" + IntToString(n);
    assert url[..|prefix|] == prefix && url[|prefix|] == '/';
    assert IndexOf(url, '/') == |prefix|;
    assert url[|prefix| + 1..] == IntToString(n);
    ParseLongIntToString(n);
  }

  /** The update strategy does not strip a query: the id piece is not a number. */
  lemma UpdateWithQueryFails(prefix: string, n: int, query: string)
    requires '/' !in prefix
    ensures UpdateClientId(prefix + "/" + IntToString(n) + "?" + query).Err?
  {
    var url := prefix + "/" + IntToString(n) + "?" + query;
    var rest := IntToString(n) + "?" + query;
    assert url == prefix + "/" + rest;
    assert url[..|prefix|] == prefix && url[|prefix|] == '/';
    assert IndexOf(url, '/') == |prefix|;
    assert url[|prefix| + 1..] == rest;
    var t := IntToString(n);
    assert rest[|t|] == '?' && 1 <= |t|;
    assert !IsDigit(rest[|t|]);
  }

  lemma OneToString()
    ensures IntToString(1) == "1"
  {
  }

  /** The URLs the batch API sends. */
  lemma ActivateExampleUrl()
    ensures ActivateClientId("clients/1?command=activate") == Ok(1)
  {
    ActivateReadsWrittenId("clients", 1, "command=activate");
    ActivateUrlSpelling();
  }

  lemma ActivateUrlSpelling()
    ensures "clients" + "/" + IntToString(1) + "?" + "command=activate" == "clients/1?command=activate"
  {
    OneToString();
  }

  lemma UpdateExampleUrl()
    ensures UpdateClientId("clients/1") == Ok(1)
  {
    OneToString();
    UpdateReadsWrittenId("clients", 1);
    assert "clients" + "/" + "1" == "clients/1";
  }

  lemma ActivateExampleUrlWithoutQuery()
    ensures ActivateClientId("clients/1") == Err(StringIndexOutOfBounds)
  {
    ActivateWithoutQueryFails("clients", "1");
    assert "clients" + "/" + "1" == "clients/1";
  }
}
