/**
 * The string-level half of the HTTP ingestion endpoint (`WebServer`): the
 * request line, the header loop, the query-string dictionary, the mapping of
 * query keys onto a request, the 200/400/405 dispatch with its enqueue, the
 * reason phrases, the port check of `Start` and the list of addresses to
 * bind.
 *
 * Sockets, tasks and streams are replaced by what they deliver: the request
 * arrives as the lines a reader would return, the peer address as an
 * optional string, the network interfaces as a value and the outcome of
 * binding a listener as a predicate on the address. `Uri.UnescapeDataString`
 * and the default-image lookup by title are function parameters.
 */
module WebService {
  import opened Strings
  import opened Configuration
  import opened Queue

  // ---------------------------------------------------------------------------
  // Reason phrases (SendHttpResponse)

  /** The reason phrase written after a status code; anything unexpected reads as a server error. */
  function StatusText(code: int): (t: string)
    ensures t == "OK" <==> code == 200
    ensures t == "Bad Request" <==> code == 400
    ensures t == "Method Not Allowed" <==> code == 405
    ensures t == "Internal Server Error" <==> code != 200 && code != 400 && code != 405
  {
    match code
    case 200 => "OK"
    case 400 => "Bad Request"
    case 405 => "Method Not Allowed"
    case _ => "Internal Server Error"
  }

  // ---------------------------------------------------------------------------
  // ParseQueryString

  /** The dictionary key of one `&`-separated piece: the text before the first '=', unescaped, case-folded. */
  function PieceKey(piece: string, unescape: string -> string): string
  {
    Lower(unescape(SplitFirst(piece, '=')[0]))
  }

  /** The value of one piece: the unescaped text after the first '=', or "" when there is none. */
  function PieceValue(piece: string, unescape: string -> string): string
  {
    var kv := SplitFirst(piece, '=');
    if |kv| == 2 then unescape(kv[1]) else ""
  }

  /**
   * The dictionary after storing the pieces in order. The dictionary compares
   * keys ignoring case, so it is keyed here by the case-folded key, and a
   * later piece overwrites an earlier one with the same key.
   */
  function QueryMap(pieces: seq<string>, unescape: string -> string): map<string, string>
  {
    if pieces == [] then map[]
    else
      var last := pieces[|pieces| - 1];
      QueryMap(pieces[..|pieces| - 1], unescape)[PieceKey(last, unescape) := PieceValue(last, unescape)]
  }

  /** The pieces `ParseQueryString` stores: none for a blank query, else the non-empty `&`-separated ones. */
  function QueryPieces(query: string): seq<string>
  {
    if IsNullOrWhiteSpace(Some(query)) then [] else SplitRemoveEmpty(query, '&')
  }

  /** Every key of the dictionary is the key of some piece. */
  lemma {:induction false} QueryMapKeySource(pieces: seq<string>, unescape: string -> string, k: string) returns (j: nat)
    requires k in QueryMap(pieces, unescape)
    ensures j < |pieces| && PieceKey(pieces[j], unescape) == k
    decreases |pieces|
  {
    var n := |pieces| - 1;
    if PieceKey(pieces[n], unescape) == k {
      j := n;
    } else {
      var init := pieces[..n];
      j := QueryMapKeySource(init, unescape, k);
      assert init[j] == pieces[j];
    }
  }

  /** The key of every piece is in the dictionary. */
  lemma {:induction false} QueryMapHasPieceKey(pieces: seq<string>, unescape: string -> string, j: nat)
    requires j < |pieces|
    ensures PieceKey(pieces[j], unescape) in QueryMap(pieces, unescape)
    decreases |pieces|
  {
    var n := |pieces| - 1;
    if j < n {
      var init := pieces[..n];
      QueryMapHasPieceKey(init, unescape, j);
      assert init[j] == pieces[j];
    }
  }

  /** The last piece with a given key decides its value: the last occurrence wins. */
  lemma {:induction false} LastOccurrenceWins(pieces: seq<string>, unescape: string -> string, j: nat)
    requires j < |pieces|
    requires forall l :: j < l < |pieces| ==> PieceKey(pieces[l], unescape) != PieceKey(pieces[j], unescape)
    ensures PieceKey(pieces[j], unescape) in QueryMap(pieces, unescape)
    ensures QueryMap(pieces, unescape)[PieceKey(pieces[j], unescape)] == PieceValue(pieces[j], unescape)
    decreases |pieces|
  {
    if j < |pieces| - 1 {
      var init := pieces[..|pieces| - 1];
      assert init[j] == pieces[j];
      forall l | j < l < |init|
        ensures PieceKey(init[l], unescape) != PieceKey(init[j], unescape)
      {
        assert init[l] == pieces[l];
      }
      LastOccurrenceWins(init, unescape, j);
    }
  }

  /** A blank query gives an empty dictionary, and so does a query made of separators only. */
  lemma BlankQueryIsEmpty(query: string, unescape: string -> string)
    requires IsNullOrWhiteSpace(Some(query))
    ensures QueryMap(QueryPieces(query), unescape) == map[]
  {
  }

  /** A piece without '=' stores its key with the empty string. */
  lemma PieceWithoutEquals(piece: string, unescape: string -> string)
    requires '=' !in piece
    ensures PieceKey(piece, unescape) == Lower(unescape(piece))
    ensures PieceValue(piece, unescape) == ""
    ensures QueryMap([piece], unescape) == map[Lower(unescape(piece)) := ""]
  {
    var none: seq<string> := [];
    assert [piece][..0] == none;
  }

  /** Only the first '=' separates key from value; later ones belong to the value. */
  lemma PieceSplitsAtFirstEquals(key: string, value: string, unescape: string -> string)
    requires '=' !in key
    ensures PieceKey(key + "=" + value, unescape) == Lower(unescape(key))
    ensures PieceValue(key + "=" + value, unescape) == unescape(value)
  {
    var piece := key + "=" + value;
    assert piece[..|key|] == key;
    assert piece[|key| + 1..] == value;
    IndexOfAt(piece, |key|, '=');
  }

  /** Storing one more piece into the dictionary of a prefix. */
  lemma QueryMapSnoc(pieces: seq<string>, i: nat, unescape: string -> string)
    requires i < |pieces|
    ensures QueryMap(pieces[..i + 1], unescape) ==
      QueryMap(pieces[..i], unescape)[PieceKey(pieces[i], unescape) := PieceValue(pieces[i], unescape)]
  {
    assert pieces[..i + 1][..i] == pieces[..i];
  }

  /** The `foreach` of `ParseQueryString`, storing each piece in turn. */
  method ParseQueryString(query: string, unescape: string -> string) returns (result: map<string, string>)
    ensures result == QueryMap(QueryPieces(query), unescape)
    ensures IsNullOrWhiteSpace(Some(query)) ==> result == map[]
  {
    result := map[];
    if IsNullOrWhiteSpace(Some(query)) {
      return;
    }
    var pairs := SplitRemoveEmpty(query, '&');
    for i := 0 to |pairs|
      invariant result == QueryMap(pairs[..i], unescape)
    {
      var keyValue := SplitFirst(pairs[i], '=');
      QueryMapSnoc(pairs, i, unescape);
      if |keyValue| == 2 {
        result := result[Lower(unescape(keyValue[0])) := unescape(keyValue[1])];
      } else {
        result := result[Lower(unescape(keyValue[0])) := ""];
      }
    }
    assert pairs[..|pairs|] == pairs;
  }

  // ---------------------------------------------------------------------------
  // ParseConfigFromUrl

  /**
   * `GetValueOrDefault(name)` on the case-insensitive dictionary: null when
   * the key is absent. Every name looked up is a lower-case literal, so it is
   * its own case-folded form.
   */
  function Lookup(m: map<string, string>, name: string): NString
  {
    if name in m then Some(m[name]) else None
  }

  /** `value?.ToLowerInvariant() == "true"`. */
  predicate IsTrue(value: NString)
  {
    value.Some? && Lower(value.value) == "true"
  }

  /** `value ?? fallback`. */
  function OrElse(value: NString, fallback: string): string
  {
    if value.Some? then value.value else fallback
  }

  /**
   * The request a query dictionary describes: each field from its key, with
   * the endpoint's defaults, and a request without an image takes the
   * default image its title selects (`imageFor` stands for the pattern
   * lookup in the default-image table).
   */
  function QueryConfig(q: map<string, string>, clientIp: string, imageFor: string -> NString): Config
  {
    WithDefaultImage(QueryFields(q, clientIp), imageFor)
  }

  /** The fields read from the query, each with its default. */
  function QueryFields(q: map<string, string>, clientIp: string): Config
  {
    DefaultConfig.(
      message := Lookup(q, "message"),
      title := Some(OrElse(Lookup(q, "title"), "Notification from " + clientIp)),
      time := Some(OrElse(Lookup(q, "time"), "10")),
      image := Lookup(q, "image"),
      position := Some(OrElse(LowerOpt(Lookup(q, "position")), "topleft")),
      exit := IsTrue(Lookup(q, "exit")),
      color := Lookup(q, "color"),
      sound := Some(OrElse(Lookup(q, "sound"), DefaultSound)),
      size := Some(OrElse(Lookup(q, "size"), "100")),
      primary := IsTrue(Lookup(q, "primary")),
      important := IsTrue(Lookup(q, "important")))
  }

  /** With no image given but a title, the image found for the title, if one is. */
  function WithDefaultImage(c: Config, imageFor: string -> NString): Config
  {
    if IsNullOrEmpty(c.image) && !IsNullOrEmpty(c.title) && imageFor(c.title.value).Some? then
      c.(image := imageFor(c.title.value))
    else c
  }

  /** The request a URL describes: a fresh one without a '?', else the one its query describes. */
  function UrlConfig(url: string, clientIp: string, unescape: string -> string, imageFor: string -> NString): Config
  {
    if IndexOf(url, '?') < 0 then DefaultConfig
    else QueryStringConfig(url[IndexOf(url, '?') + 1..], clientIp, unescape, imageFor)
  }

  /** The request a query string describes. */
  function QueryStringConfig(query: string, clientIp: string, unescape: string -> string, imageFor: string -> NString): Config
  {
    QueryConfig(QueryMap(QueryPieces(query), unescape), clientIp, imageFor)
  }

  /** A URL without a query is a request with an empty message. */
  lemma NoQueryHasNoMessage(url: string, clientIp: string, unescape: string -> string, imageFor: string -> NString)
    requires '?' !in url
    ensures UrlConfig(url, clientIp, unescape, imageFor) == DefaultConfig
    ensures IsNullOrWhiteSpace(UrlConfig(url, clientIp, unescape, imageFor).message)
  {
  }

  /** The query keys `ParseConfigFromUrl` reads. */
  const RecognisedQueryKeys: set<string> :=
    {"message", "title", "time", "image", "position", "exit", "color", "sound", "size", "primary", "important"}

  /**
   * With a query that names none of the keys, the request gets the endpoint's
   * defaults: a title naming the client, 10 seconds, top-left, size 100, the
   * default sound, and no exit, primary or important flag.
   */
  lemma QueryDefaults(q: map<string, string>, clientIp: string, imageFor: string -> NString)
    requires forall name :: name in RecognisedQueryKeys ==> name !in q
    ensures var c := QueryConfig(q, clientIp, imageFor);
      c.message.None? && c.title == Some("Notification from " + clientIp) && c.time == Some("10") &&
      c.position == Some("topleft") && c.size == Some("100") && c.sound == Some(DefaultSound) &&
      !c.exit && !c.primary && !c.important && c.color.None?
  {
    assert "message" in RecognisedQueryKeys && "title" in RecognisedQueryKeys;
    assert "time" in RecognisedQueryKeys && "position" in RecognisedQueryKeys;
    assert "size" in RecognisedQueryKeys && "sound" in RecognisedQueryKeys && "color" in RecognisedQueryKeys;
    assert "exit" in RecognisedQueryKeys && "primary" in RecognisedQueryKeys && "important" in RecognisedQueryKeys;
  }

  /** A flag is set exactly when its value reads "true" in any case; a given message or title is kept as it is. */
  lemma QueryFieldsKept(q: map<string, string>, clientIp: string, imageFor: string -> NString)
    ensures var c := QueryConfig(q, clientIp, imageFor);
      (c.exit <==> "exit" in q && Lower(q["exit"]) == "true") &&
      (c.important <==> "important" in q && Lower(q["important"]) == "true") &&
      (c.primary <==> "primary" in q && Lower(q["primary"]) == "true") &&
      ("message" in q ==> c.message == Some(q["message"])) &&
      ("title" in q ==> c.title == Some(q["title"])) &&
      ("position" in q ==> c.position == Some(Lower(q["position"])))
  {
  }

  /** `ParseConfigFromUrl`: a fresh request, filled in from the query when the URL has one. */
  method ParseConfigFromUrl(url: string, clientIp: string, unescape: string -> string, imageFor: string -> NString)
    returns (config: Config)
    ensures config == UrlConfig(url, clientIp, unescape, imageFor)
  {
    config := DefaultConfig;
    var queryIndex := IndexOf(url, '?');
    if queryIndex >= 0 {
      config := ConfigFromQuery(config, url[queryIndex + 1..], clientIp, unescape, imageFor);
    }
  }

  /**
   * The query half of `ParseConfigFromUrl`: the dictionary is parsed, the
   * fields of the fresh request are assigned one by one from it, then the
   * default image.
   */
  method ConfigFromQuery(initial: Config, query: string, clientIp: string, unescape: string -> string, imageFor: string -> NString)
    returns (config: Config)
    requires initial == DefaultConfig
    ensures config == QueryStringConfig(query, clientIp, unescape, imageFor)
  {
    var queryParams := ParseQueryString(query, unescape);
    config := initial;
    config := config.(message := Lookup(queryParams, "message"));
    config := config.(title := Some(OrElse(Lookup(queryParams, "title"), "Notification from " + clientIp)));
    config := config.(time := Some(OrElse(Lookup(queryParams, "time"), "10")));
    config := config.(image := Lookup(queryParams, "image"));
    config := config.(position := Some(OrElse(LowerOpt(Lookup(queryParams, "position")), "topleft")));
    config := config.(exit := IsTrue(Lookup(queryParams, "exit")));
    config := config.(color := Lookup(queryParams, "color"));
    config := config.(sound := Some(OrElse(Lookup(queryParams, "sound"), DefaultSound)));
    config := config.(size := Some(OrElse(Lookup(queryParams, "size"), "100")));
    config := config.(primary := IsTrue(Lookup(queryParams, "primary")));
    config := config.(important := IsTrue(Lookup(queryParams, "important")));
    assert config == QueryFields(queryParams, clientIp);
    if IsNullOrEmpty(config.image) && !IsNullOrEmpty(config.title) {
      var image := imageFor(config.title.value);
      if image.Some? {
        config := config.(image := image);
      }
    }
  }

  /** The query of a URL is what follows its first '?'. */
  lemma QueryOfUrl(path: string, query: string)
    requires '?' !in path
    ensures IndexOf(path + "?" + query, '?') == |path|
    ensures (path + "?" + query)[|path| + 1..] == query
  {
    var url := path + "?" + query;
    assert url[..|path|] == path;
    IndexOfAt(url, |path|, '?');
  }

  /** A non-blank query without '&' is one piece. */
  lemma SinglePiece(query: string)
    requires query != [] && !IsWhiteSpace(query[0]) && '&' !in query
    ensures QueryPieces(query) == [query]
  {
    assert !AllWhiteSpace(query);
    assert IndexOf(query, '&') == -1;
    assert Split(query, '&') == [query];
    var none: seq<string> := [];
    assert [query][1..] == none;
    assert NonEmpty(none) == none;
    assert NonEmpty([query]) == [query] + none;
  }

  /** The dictionary of a single piece. */
  lemma OnePieceMap(piece: string, unescape: string -> string)
    ensures QueryMap([piece], unescape) == map[PieceKey(piece, unescape) := PieceValue(piece, unescape)]
  {
    var none: seq<string> := [];
    assert [piece][..0] == none;
  }

  /** The query "message=<msg>" is a single piece. */
  lemma MessagePiece(msg: string)
    requires '&' !in msg
    ensures QueryPieces("message=" + msg) == ["message=" + msg]
  {
    var query := "message=" + msg;
    assert !IsWhiteSpace(query[0]);
    assert '&' !in query by {
      assert forall i :: 0 <= i < |query| ==> query[i] == '&' ==> i >= 8 && msg[i - 8] == '&';
    }
    SinglePiece(query);
  }

  /** The query "message=<msg>" is the dictionary holding just that message. */
  lemma MessageQuery(msg: string, unescape: string -> string)
    requires '&' !in msg && '=' !in msg
    requires unescape("message") == "message" && unescape(msg) == msg
    ensures QueryMap(QueryPieces("message=" + msg), unescape) == map["message" := msg]
  {
    var query := "message=" + msg;
    MessagePiece(msg);
    MessagePieceParts(msg, unescape);
    OnePieceMap(query, unescape);
  }

  /** The piece "message=<msg>" has key "message" and value `msg`. */
  lemma MessagePieceParts(msg: string, unescape: string -> string)
    requires unescape("message") == "message" && unescape(msg) == msg
    ensures PieceKey("message=" + msg, unescape) == "message"
    ensures PieceValue("message=" + msg, unescape) == msg
  {
    MessagePieceSplits(msg);
    PieceSplitsAtFirstEquals("message", msg, unescape);
    LowerMessage();
  }

  /** The key "message" is already case-folded. */
  lemma LowerMessage()
    ensures Lower("message") == "message"
  {
    LowerIdentity("message");
  }

  /** "message=<msg>" is the key "message", a '=' and `msg`. */
  lemma MessagePieceSplits(msg: string)
    ensures "message=" + msg == "message" + "=" + msg
  {
  }

  /** The URL "<path>?message=<msg>" describes the request of the dictionary holding just that message. */
  lemma MessageUrl(path: string, msg: string, clientIp: string, unescape: string -> string, imageFor: string -> NString)
    requires '?' !in path
    requires '&' !in msg && '=' !in msg
    requires unescape("message") == "message" && unescape(msg) == msg
    ensures UrlConfig(path + "?message=" + msg, clientIp, unescape, imageFor) == QueryConfig(map["message" := msg], clientIp, imageFor)
  {
    var query := "message=" + msg;
    assert path + "?message=" + msg == path + "?" + query;
    QueryOfUrl(path, query);
    MessageQuery(msg, unescape);
  }

  /**
   * A URL carrying just a message that needs no unescaping yields that
   * message and the title naming the client.
   */
  lemma MessageRoundTrip(path: string, msg: string, clientIp: string, unescape: string -> string, imageFor: string -> NString)
    requires '?' !in path
    requires '&' !in msg && '=' !in msg
    requires unescape("message") == "message" && unescape(msg) == msg
    ensures UrlConfig(path + "?message=" + msg, clientIp, unescape, imageFor).message == Some(msg)
    ensures UrlConfig(path + "?message=" + msg, clientIp, unescape, imageFor).title == Some("Notification from " + clientIp)
  {
    MessageUrl(path, msg, clientIp, unescape, imageFor);
    var q := map["message" := msg];
    assert "title" !in q;
  }

  // ---------------------------------------------------------------------------
  // HandleClient

  /**
   * The method and target of a request line, which has the form
   * `method SP request-target SP HTTP-version` (section 3 of RFC 9112); a
   * missing, empty or short line gives nothing.
   */
  function RequestTarget(lines: seq<string>): (r: Option<(string, string)>)
    ensures r.Some? ==> lines != [] && lines[0] != ""
  {
    if lines == [] || lines[0] == "" then None
    else
      var parts := Split(lines[0], ' ');
      if |parts| < 3 then None else Some((parts[0], parts[1]))
  }

  lemma SplitAtSeparator(a: string, rest: string, sep: char)
    requires sep !in a
    ensures Split(a + [sep] + rest, sep) == [a] + Split(rest, sep)
  {
    var s := a + [sep] + rest;
    assert s[..|a|] == a && s[|a| + 1..] == rest;
    IndexOfAt(s, |a|, sep);
  }

  /** A request line splits at its two spaces. */
  lemma SplitRequestLine(m: string, target: string, version: string)
    requires ' ' !in m && ' ' !in target && ' ' !in version
    ensures Split(m + " " + target + " " + version, ' ') == [m, target, version]
  {
    var line := m + " " + target + " " + version;
    assert line == m + [' '] + (target + [' '] + version);
    SplitAtSeparator(m, target + [' '] + version, ' ');
    SplitAtSeparator(target, version, ' ');
    assert Split(version, ' ') == [version];
  }

  /** A well-formed request line gives back its method and target. */
  lemma RequestLineRoundTrip(m: string, target: string, version: string, headers: seq<string>)
    requires ' ' !in m && ' ' !in target && ' ' !in version
    ensures RequestTarget([m + " " + target + " " + version] + headers) == Some((m, target))
  {
    var line := m + " " + target + " " + version;
    SplitRequestLine(m, target, version);
    assert line[|m|] == ' ';
  }

  /** A request line is answered exactly when it holds at least two spaces, that is at least three space-separated parts. */
  lemma RequestTargetNeedsTwoSpaces(lines: seq<string>)
    ensures RequestTarget(lines).Some? <==> lines != [] && lines[0] != "" && multiset(lines[0])[' '] >= 2
  {
    if lines != [] && lines[0] != "" {
      SplitCount(lines[0], ' ');
    }
  }

  /** A request line of one part, or of two parts around one space, gets no response and enqueues nothing. */
  lemma ShortRequestLine(m: string, target: string, headers: seq<string>, remote: NString, unescape: string -> string, imageFor: string -> NString)
    requires ' ' !in m && ' ' !in target
    ensures RequestTarget([m] + headers).None? && RequestTarget([m + " " + target] + headers).None?
    ensures Exchange([m] + headers, remote, unescape, imageFor) == Outcome(None, None)
    ensures Exchange([m + " " + target] + headers, remote, unescape, imageFor) == Outcome(None, None)
  {
    var line := m + " " + target;
    assert multiset(line) == multiset(m) + multiset{' '} + multiset(target) by {
      assert line == m + [' '] + target;
    }
    assert multiset(m)[' '] == 0 && multiset(target)[' '] == 0;
    RequestTargetNeedsTwoSpaces([m] + headers);
    RequestTargetNeedsTwoSpaces([line] + headers);
  }

  /** The response written back: status code, reason phrase and message. */
  datatype Response = Response(status: int, text: string, message: string)

  function Respond(message: string, status: int): Response
  {
    Response(status, StatusText(status), message)
  }

  /** What one exchange does: the response written, if any, and the request enqueued, if any. */
  datatype Outcome = Outcome(response: Option<Response>, enqueued: Option<Config>)

  /**
   * One exchange. A GET (compared ignoring case) with a non-blank message
   * enqueues the request and is answered 200; one with a blank message is
   * answered 400 and enqueues nothing; any other method is answered 405.
   */
  function Exchange(lines: seq<string>, remote: NString, unescape: string -> string, imageFor: string -> NString): (o: Outcome)
    ensures RequestTarget(lines).None? ==> o == Outcome(None, None)
    ensures RequestTarget(lines).Some? ==> o.response.Some?
    ensures o.enqueued.Some? <==> o.response.Some? && o.response.value.status == 200
    ensures o.enqueued.Some? ==> !IsNullOrWhiteSpace(o.enqueued.value.message)
    ensures o.response.Some? ==> o.response.value.status in {200, 400, 405} &&
                                 o.response.value.text == StatusText(o.response.value.status)
  {
    match RequestTarget(lines)
    case None => Outcome(None, None)
    case Some((m, url)) =>
      if Lower(m) == "get" then
        var config := UrlConfig(url, OrElse(remote, "unknown"), unescape, imageFor);
        if IsNullOrWhiteSpace(config.message) then Outcome(Some(Respond("Missing 'message' parameter", 400)), None)
        else Outcome(Some(Respond("Notification queued successfully", 200)), Some(config))
      else Outcome(Some(Respond("Method not allowed", 405)), None)
  }

  /** Any method other than GET is refused with 405 and enqueues nothing. */
  lemma NonGetIsRefused(lines: seq<string>, remote: NString, unescape: string -> string, imageFor: string -> NString)
    requires RequestTarget(lines).Some? && Lower(RequestTarget(lines).value.0) != "get"
    ensures Exchange(lines, remote, unescape, imageFor) == Outcome(Some(Response(405, "Method Not Allowed", "Method not allowed")), None)
  {
  }

  /** A GET whose URL carries a null or blank message is answered 400 and enqueues nothing. */
  lemma GetWithBlankMessageIsBadRequest(lines: seq<string>, remote: NString, unescape: string -> string, imageFor: string -> NString)
    requires RequestTarget(lines).Some? && Lower(RequestTarget(lines).value.0) == "get"
    requires IsNullOrWhiteSpace(UrlConfig(RequestTarget(lines).value.1, OrElse(remote, "unknown"), unescape, imageFor).message)
    ensures Exchange(lines, remote, unescape, imageFor) == Outcome(Some(Response(400, "Bad Request", "Missing 'message' parameter")), None)
  {
  }

  /** In particular a GET without a query string is answered 400. */
  lemma GetWithoutQueryIsBadRequest(lines: seq<string>, remote: NString, unescape: string -> string, imageFor: string -> NString)
    requires RequestTarget(lines).Some? && Lower(RequestTarget(lines).value.0) == "get"
    requires '?' !in RequestTarget(lines).value.1
    ensures Exchange(lines, remote, unescape, imageFor) == Outcome(Some(Response(400, "Bad Request", "Missing 'message' parameter")), None)
  {
    NoQueryHasNoMessage(RequestTarget(lines).value.1, OrElse(remote, "unknown"), unescape, imageFor);
    GetWithBlankMessageIsBadRequest(lines, remote, unescape, imageFor);
  }

  /** A GET carrying a message enqueues exactly the request its URL describes. */
  lemma GetWithMessageIsQueued(lines: seq<string>, remote: NString, unescape: string -> string, imageFor: string -> NString)
    requires RequestTarget(lines).Some? && Lower(RequestTarget(lines).value.0) == "get"
    requires !IsNullOrWhiteSpace(UrlConfig(RequestTarget(lines).value.1, OrElse(remote, "unknown"), unescape, imageFor).message)
    ensures Exchange(lines, remote, unescape, imageFor).enqueued == Some(UrlConfig(RequestTarget(lines).value.1, OrElse(remote, "unknown"), unescape, imageFor))
    ensures Exchange(lines, remote, unescape, imageFor).response == Some(Response(200, "OK", "Notification queued successfully"))
  {
  }

  // ---------------------------------------------------------------------------
  // The header loop

  /** The header lines the loop reads: from `from` up to the first empty line or the end of the stream. */
  function HeaderEnd(lines: seq<string>, from: nat): (k: nat)
    requires from <= |lines|
    ensures from <= k <= |lines|
    decreases |lines| - from
  {
    if from == |lines| || lines[from] == "" then from else HeaderEnd(lines, from + 1)
  }

  /**
   * One header line stored in the dictionary (keys compared ignoring case): a
   * line with a colon after its first character stores its trimmed value
   * under its trimmed key, overwriting an earlier one with the same key; any
   * other line adds nothing.
   */
  function AddHeader(m: map<string, string>, line: string): map<string, string>
  {
    var colon := IndexOf(line, ':');
    if colon > 0 then m[Lower(Trim(line[..colon])) := Trim(line[colon + 1..])] else m
  }

  /** The header dictionary after storing the header lines `lines[1..to]` in order (line 0 is the request line). */
  function HeaderMap(lines: seq<string>, to: nat): map<string, string>
    requires 1 <= to <= |lines|
  {
    if to == 1 then map[] else AddHeader(HeaderMap(lines, to - 1), lines[to - 1])
  }

  /** A header line with a colon stores its trimmed value under its key, overwriting any earlier value. */
  lemma LaterHeaderWins(lines: seq<string>, to: nat, key: string, value: string)
    requires 1 < to <= |lines| && lines[to - 1] == key + ":" + value
    requires ':' !in key && key != []
    ensures Lower(Trim(key)) in HeaderMap(lines, to)
    ensures HeaderMap(lines, to)[Lower(Trim(key))] == Trim(value)
  {
    var line := key + ":" + value;
    assert line[|key|] == ':';
    assert line[..|key|] == key;
    assert IndexOf(line, ':') == |key|;
    assert line[|key| + 1..] == value;
  }

  /** `while (!IsNullOrEmpty(line = ReadLine()))`: the header loop of `HandleClient`. */
  method ReadHeaders(lines: seq<string>) returns (headers: map<string, string>, next: nat)
    requires lines != []
    ensures next == HeaderEnd(lines, 1)
    ensures headers == HeaderMap(lines, next)
  {
    headers := map[];
    next := 1;
    while next < |lines| && lines[next] != ""
      invariant 1 <= next <= |lines|
      invariant HeaderEnd(lines, next) == HeaderEnd(lines, 1)
      invariant headers == HeaderMap(lines, next)
      decreases |lines| - next
    {
      headers := AddHeader(headers, lines[next]);
      next := next + 1;
    }
  }

  // ---------------------------------------------------------------------------
  // Addresses to bind

  /** An address of a network interface: its text and whether it is IPv4. */
  datatype Address = Address(text: string, ipv4: bool)

  /** A network interface: operational status, loopback type and unicast addresses. */
  datatype Interface = Interface(up: bool, loopback: bool, unicast: seq<Address>)

  /** The IPv4 addresses in a list, in order. */
  function IPv4Texts(addrs: seq<Address>): seq<string>
  {
    if addrs == [] then []
    else
      var init := IPv4Texts(addrs[..|addrs| - 1]);
      if addrs[|addrs| - 1].ipv4 then init + [addrs[|addrs| - 1].text] else init
  }

  /** The IPv4 addresses an interface contributes: none unless it is up and not a loopback. */
  function Contributed(i: Interface): seq<string>
  {
    if i.up && !i.loopback then IPv4Texts(i.unicast) else []
  }

  /** The candidates from all interfaces, in enumeration order. */
  function Candidates(ifaces: seq<Interface>): seq<string>
  {
    if ifaces == [] then [] else Candidates(ifaces[..|ifaces| - 1]) + Contributed(ifaces[|ifaces| - 1])
  }

  /** A list with every repeated element dropped after its first occurrence. */
  function Dedup(s: seq<string>): (r: seq<string>)
    ensures |r| <= |s|
  {
    if s == [] then []
    else
      var d := Dedup(s[..|s| - 1]);
      if s[|s| - 1] in d then d else d + [s[|s| - 1]]
  }

  predicate NoDuplicates(s: seq<string>)
  {
    forall i, j :: 0 <= i < j < |s| ==> s[i] != s[j]
  }

  /** De-duplication keeps every element, adds none, and leaves no repeats. */
  lemma {:induction false} DedupCorrect(s: seq<string>)
    ensures NoDuplicates(Dedup(s))
    ensures forall x :: x in Dedup(s) <==> x in s
  {
    if s != [] {
      var init := s[..|s| - 1];
      DedupCorrect(init);
      assert s == init + [s[|s| - 1]];
    }
  }

  /** De-duplication keeps the first element first. */
  lemma {:induction false} DedupKeepsHead(s: seq<string>)
    requires s != []
    ensures Dedup(s) != [] && Dedup(s)[0] == s[0]
  {
    if |s| > 1 {
      DedupKeepsHead(s[..|s| - 1]);
    }
  }

  lemma DedupSnoc(s: seq<string>, x: string)
    ensures Dedup(s + [x]) == if x in Dedup(s) then Dedup(s) else Dedup(s) + [x]
  {
    assert (s + [x])[..|s|] == s;
  }

  /** One more interface adds what it contributes to the candidates. */
  lemma InterfaceStep(fs: seq<Interface>, i: nat)
    requires i < |fs|
    ensures ["127.0.0.1"] + Candidates(fs[..i + 1]) == ["127.0.0.1"] + Candidates(fs[..i]) + Contributed(fs[i])
    ensures !(fs[i].up && !fs[i].loopback) ==> ["127.0.0.1"] + Candidates(fs[..i + 1]) == ["127.0.0.1"] + Candidates(fs[..i])
  {
    assert fs[..i + 1][..i] == fs[..i];
  }

  lemma UnicastStart(before: seq<string>, addrs: seq<Address>)
    ensures before + IPv4Texts(addrs[..0]) == before
  {
    assert addrs[..0] == [];
  }

  /** One more unicast address: an IPv4 one not yet listed is appended, anything else leaves the list as it is. */
  lemma AddressStep(before: seq<string>, addrs: seq<Address>, j: nat, listed: seq<string>)
    requires j < |addrs| && listed == Dedup(before + IPv4Texts(addrs[..j]))
    ensures addrs[j].ipv4 && addrs[j].text !in listed ==> listed + [addrs[j].text] == Dedup(before + IPv4Texts(addrs[..j + 1]))
    ensures !(addrs[j].ipv4 && addrs[j].text !in listed) ==> listed == Dedup(before + IPv4Texts(addrs[..j + 1]))
  {
    assert addrs[..j + 1][..j] == addrs[..j];
    if addrs[j].ipv4 {
      DedupSnoc(before + IPv4Texts(addrs[..j]), addrs[j].text);
      assert before + IPv4Texts(addrs[..j + 1]) == before + IPv4Texts(addrs[..j]) + [addrs[j].text];
    }
  }

  /**
   * The addresses `GetNetworkInterfaceAddresses` returns: localhost, then each
   * new IPv4 address of an interface that is up and not a loopback; only
   * localhost when the interfaces cannot be enumerated (`None`).
   */
  function BindAddresses(ifaces: Option<seq<Interface>>): seq<string>
  {
    match ifaces
    case None => ["127.0.0.1"]
    case Some(fs) => Dedup(["127.0.0.1"] + Candidates(fs))
  }

  /** The bind list starts with localhost, repeats nothing and holds exactly localhost and the candidates. */
  lemma BindAddressesShape(ifaces: Option<seq<Interface>>)
    ensures var a := BindAddresses(ifaces);
      a != [] && a[0] == "127.0.0.1" && NoDuplicates(a) &&
      (ifaces.Some? ==> forall x :: x in a <==> x == "127.0.0.1" || x in Candidates(ifaces.value))
  {
    if ifaces.Some? {
      var s := ["127.0.0.1"] + Candidates(ifaces.value);
      DedupCorrect(s);
      DedupKeepsHead(s);
    }
  }

  /** The addresses among `addrs` whose listener starts, in order. */
  function Bound(addrs: seq<string>, binds: string -> bool): seq<string>
  {
    if addrs == [] then []
    else
      var init := Bound(addrs[..|addrs| - 1], binds);
      if binds(addrs[|addrs| - 1]) then init + [addrs[|addrs| - 1]] else init
  }

  const MaxPort: int := 65535

  /** The HTTP listener: the queue it feeds, the addresses it listens on and whether it runs. */
  class WebServer {
    const queue: NotificationQueue
    const config: Config
    var listeners: seq<string>
    var isRunning: bool

    constructor (notificationQueue: NotificationQueue, config: Config)
      ensures queue == notificationQueue && this.config == config
      ensures listeners == [] && !isRunning
    {
      queue := notificationQueue;
      this.config := config;
      listeners := [];
      isRunning := false;
    }

    /** The inner `foreach` over one interface's unicast addresses, adding each IPv4 address not yet listed. */
    method AddUnicastAddresses(listed: seq<string>, unicast: seq<Address>, ghost before: seq<string>) returns (addresses: seq<string>)
      requires listed == Dedup(before)
      ensures addresses == Dedup(before + IPv4Texts(unicast))
    {
      addresses := listed;
      UnicastStart(before, unicast);
      for j := 0 to |unicast|
        invariant addresses == Dedup(before + IPv4Texts(unicast[..j]))
      {
        var address := unicast[j];
        AddressStep(before, unicast, j, addresses);
        if address.ipv4 {
          var ip := address.text;
          if !(ip in addresses) {
            addresses := addresses + [ip];
          }
        }
      }
      assert unicast[..|unicast|] == unicast;
    }

    /**
     * `GetNetworkInterfaceAddresses`: localhost first, then the nested
     * `foreach` over interfaces and their unicast addresses, adding each
     * IPv4 address not already in the list.
     */
    method GetNetworkInterfaceAddresses(ifaces: Option<seq<Interface>>) returns (addresses: seq<string>)
      ensures addresses == BindAddresses(ifaces)
      ensures addresses != [] && addresses[0] == "127.0.0.1" && NoDuplicates(addresses)
    {
      addresses := ["127.0.0.1"];
      assert addresses == Dedup(["127.0.0.1"]);
      if ifaces.Some? {
        var fs := ifaces.value;
        assert fs[..0] == [];
        for i := 0 to |fs|
          invariant addresses == Dedup(["127.0.0.1"] + Candidates(fs[..i]))
        {
          var iface := fs[i];
          InterfaceStep(fs, i);
          if iface.up && !iface.loopback {
            addresses := AddUnicastAddresses(addresses, iface.unicast, ["127.0.0.1"] + Candidates(fs[..i]));
          }
        }
        assert fs[..|fs|] == fs;
      }
      BindAddressesShape(ifaces);
    }

    /**
     * `Start`: a port outside 1..65535 is refused and changes nothing;
     * otherwise a listener is started on every bind address that accepts
     * one, and the server counts as running even if none did.
     */
    method Start(apiListenPort: int, ifaces: Option<seq<Interface>>, binds: string -> bool)
      modifies this
      ensures apiListenPort <= 0 || apiListenPort > MaxPort ==> listeners == old(listeners) && isRunning == old(isRunning)
      ensures 0 < apiListenPort <= MaxPort ==> isRunning && listeners == old(listeners) + Bound(BindAddresses(ifaces), binds)
    {
      if apiListenPort <= 0 || apiListenPort > MaxPort {
        return;
      }
      var addresses := GetNetworkInterfaceAddresses(ifaces);
      if addresses == [] {
        return;
      }
      ghost var start := listeners;
      for i := 0 to |addresses|
        invariant listeners == start + Bound(addresses[..i], binds)
      {
        assert addresses[..i + 1][..i] == addresses[..i];
        if binds(addresses[i]) {
          listeners := listeners + [addresses[i]];
        }
      }
      assert addresses[..|addresses|] == addresses;
      isRunning := true;
    }

    /** `Stop`: a running server closes every listener; a stopped one does nothing. */
    method Stop()
      modifies this
      ensures !old(isRunning) ==> listeners == old(listeners) && !isRunning
      ensures old(isRunning) ==> listeners == [] && !isRunning
    {
      if !isRunning {
        return;
      }
      listeners := [];
      isRunning := false;
    }

    /**
     * `HandleClient` on the lines a client sent: parse the request line, read
     * the headers, then dispatch; the queue changes exactly when the request
     * is accepted, by one `Enqueue`.
     */
    method HandleClient(lines: seq<string>, remote: NString, unescape: string -> string, imageFor: string -> NString)
      returns (response: Option<Response>)
      requires queue.Valid()
      modifies queue
      ensures queue.Valid()
      ensures response == Exchange(lines, remote, unescape, imageFor).response
      ensures var e := Exchange(lines, remote, unescape, imageFor).enqueued;
        queue.State() == if e.Some? then EnqueueStep(old(queue.State()), e.value) else old(queue.State())
    {
      var clientIp := OrElse(remote, "unknown");
      if lines == [] || lines[0] == "" {
        return None;
      }
      var requestLine := lines[0];
      var parts := Split(requestLine, ' ');
      if |parts| < 3 {
        return None;
      }
      var requestMethod := parts[0];
      var url := parts[1];
      var headers, _ := ReadHeaders(lines);
      if Lower(requestMethod) == "get" {
        var config := ParseConfigFromUrl(url, clientIp, unescape, imageFor);
        if IsNullOrWhiteSpace(config.message) {
          return Some(Respond("Missing 'message' parameter", 400));
        }
        queue.Enqueue(config);
        return Some(Respond("Notification queued successfully", 200));
      } else {
        return Some(Respond("Method not allowed", 405));
      }
    }
  }
}
