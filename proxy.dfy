/**
 * The server-side proxy route: `redact`, which masks the values of query
 * parameters whose names look secret before a URL is logged, and the
 * `GET` handler, which forwards a request to the URL named by its `url`
 * parameter and mirrors the answer. The network, the clock and the console
 * are parameters and outputs of the model.
 */
module Proxy {
  import opened Wrappers
  import opened Js
  import opened SearchParams

  // ---------------------------------------------------------------------
  // redact
  // ---------------------------------------------------------------------

  /** A string `new URL(...)` either rejects or parses. */
  datatype Target = Unparseable(text: string) | Parsed(url: Url)

  /** The value that replaces a secret. */
  const Mask := "REDACTED"

  /** ASCII letters in lower case, other characters unchanged. */
  function LowerAscii(s: string): (r: string)
    ensures |r| == |s|
    ensures forall i :: 0 <= i < |s| ==> r[i] == if 'A' <= s[i] <= 'Z' then (s[i] as int + 32) as char else s[i]
  {
    if s == [] then []
    else [if 'A' <= s[0] <= 'Z' then (s[0] as int + 32) as char else s[0]] + LowerAscii(s[1..])
  }

  /** `w` occurs in `s` as a run of consecutive characters. */
  predicate Contains(s: string, w: string) {
    if |s| < |w| then false else s[..|w|] == w || Contains(s[1..], w)
  }

  /**
   * The test `/(token|key|secret|sig|auth)/i`: the name contains one of the
   * five words, ignoring case. For these all-ASCII words the regular
   * expression's case folding is exactly ASCII case folding.
   */
  predicate Sensitive(k: string) {
    var l := LowerAscii(k);
    Contains(l, "token") || Contains(l, "key") || Contains(l, "secret") || Contains(l, "sig") || Contains(l, "auth")
  }

  /** The test of a pair whose name `secret` does not flag. */
  function NotSecret(secret: string -> bool): Param -> bool {
    (p: Param) => !secret(p.key)
  }

  /**
   * What the redaction loop makes of a query, as a reference definition: a
   * pair with a sensitive name is masked and the later pairs of that name
   * are dropped; every other pair stays as it is.
   */
  function Scrub(ps: seq<Param>, secret: string -> bool): seq<Param>
    decreases |ps|
  {
    if ps == [] then []
    else if secret(ps[0].key) then [Param(ps[0].key, Mask)] + Scrub(WithoutKey(ps[1..], ps[0].key), secret)
    else [ps[0]] + Scrub(ps[1..], secret)
  }

  /**
   * `redact(u)`: an unparseable input comes back unchanged; otherwise the
   * loop walks the live list of pairs and sets every sensitive name to the
   * mask, which (as `set` does) also drops that name's later pairs.
   */
  method Redact(t: Target) returns (r: Target)
    ensures t.Unparseable? ==> r == t
    ensures t.Parsed? ==> r == Parsed(t.url.(params := Scrub(t.url.params, Sensitive)))
  {
    if t.Unparseable? {
      return t;
    }
    var list := t.url.params;
    var i := 0;
    while i < |list|
      invariant i <= |list|
      invariant list[..i] + Scrub(list[i..], Sensitive) == Scrub(t.url.params, Sensitive)
      invariant Separated(list, i, Sensitive)
      decreases |list| - i
    {
      var k := list[i].key;
      if Sensitive(k) {
        MaskInPlace(list, i, Sensitive);
        ghost var before := list;
        list := SetParam(list, k, Mask);
        MaskStep(before, i, list, Sensitive);
        KeptSeparated(before, i, WithoutKey(before[i + 1..], k), list, Sensitive);
      } else {
        PlainStep(list, i, Sensitive);
      }
      i := i + 1;
    }
    assert list[i..] == [];
    return Parsed(t.url.(params := list));
  }

  /** Before position `i`, every sensitive name has no pair at `i` or later. */
  ghost predicate Separated(list: seq<Param>, i: nat, secret: string -> bool) {
    forall j, m :: 0 <= j < i <= m < |list| && secret(list[j].key) ==> list[m].key != list[j].key
  }

  /**
   * On a sensitive name the loop's `set` masks the pair in place and drops
   * the later pairs of that name.
   */
  lemma MaskInPlace(list: seq<Param>, i: nat, secret: string -> bool)
    requires i < |list| && secret(list[i].key)
    requires Separated(list, i, secret)
    ensures SetParam(list, list[i].key, Mask) == list[..i] + [Param(list[i].key, Mask)] + WithoutKey(list[i + 1..], list[i].key)
  {
    SetFirstUnseen(list, i, list[i].key, Mask);
  }

  /** Masking position `i` keeps the loop's first invariant. */
  lemma MaskStep(list: seq<Param>, i: nat, l': seq<Param>, secret: string -> bool)
    requires i < |list| && secret(list[i].key)
    requires l' == list[..i] + [Param(list[i].key, Mask)] + WithoutKey(list[i + 1..], list[i].key)
    ensures i + 1 <= |l'| <= |list|
    ensures l'[..i + 1] + Scrub(l'[i + 1..], secret) == list[..i] + Scrub(list[i..], secret)
  {
    var k := list[i].key;
    var rest := WithoutKey(list[i + 1..], k);
    SplitAround(list[..i], Param(k, Mask), rest, l');
    ScrubHead(list[i..], list[i + 1..], secret);
    Regroup(list[..i], [Param(k, Mask)], Scrub(rest, secret));
  }

  /** The parts of `a + [x] + b` by position. */
  lemma SplitAround<T>(a: seq<T>, x: T, b: seq<T>, s: seq<T>)
    requires s == a + [x] + b
    ensures |s| == |a| + 1 + |b|
    ensures s[..|a| + 1] == a + [x] && s[|a| + 1..] == b
  {
  }

  lemma Regroup<T>(a: seq<T>, b: seq<T>, c: seq<T>)
    ensures a + (b + c) == (a + b) + c
  {
  }

  /** Scrubbing a list that starts with a sensitive pair. */
  lemma ScrubHead(s: seq<Param>, tail: seq<Param>, secret: string -> bool)
    requires s != [] && secret(s[0].key) && tail == s[1..]
    ensures Scrub(s, secret) == [Param(s[0].key, Mask)] + Scrub(WithoutKey(tail, s[0].key), secret)
  {
  }

  /** After a sensitive pair is masked, no later pair repeats a sensitive name before it. */
  lemma KeptSeparated(list: seq<Param>, i: nat, rest: seq<Param>, l': seq<Param>, secret: string -> bool)
    requires i < |list|
    requires Separated(list, i, secret)
    requires rest == WithoutKey(list[i + 1..], list[i].key)
    requires l' == list[..i] + [Param(list[i].key, Mask)] + rest
    ensures Separated(l', i + 1, secret)
  {
    forall j, m | 0 <= j < i + 1 <= m < |l'| && secret(l'[j].key) ensures l'[m].key != l'[j].key {
      var q := l'[m];
      assert q == rest[m - i - 1];
      assert q in list[i + 1..] && q.key != list[i].key;
      if j < i {
        assert l'[j] == list[j];
        var m' :| 0 <= m' < |list[i + 1..]| && list[i + 1..][m'] == q;
        assert list[i + 1 + m'] == q;
      }
    }
  }

  /** One step of the loop on a plain name keeps its invariants. */
  lemma PlainStep(list: seq<Param>, i: nat, secret: string -> bool)
    requires i < |list| && !secret(list[i].key)
    ensures list[..i] + Scrub(list[i..], secret) == list[..i + 1] + Scrub(list[i + 1..], secret)
  {
    assert list[..i + 1] == list[..i] + [list[i]];
    assert list[i..][1..] == list[i + 1..];
  }

  /** When position `i` holds the first pair named `k`, `set` rewrites it there and drops the later ones. */
  lemma {:induction false} SetFirstUnseen(ps: seq<Param>, i: nat, k: string, v: string)
    requires i < |ps| && ps[i].key == k
    requires forall j :: 0 <= j < i ==> ps[j].key != k
    ensures SetParam(ps, k, v) == ps[..i] + [Param(k, v)] + WithoutKey(ps[i + 1..], k)
  {
    if i > 0 {
      var tail := ps[1..];
      forall j | 0 <= j < i - 1 ensures tail[j].key != k {
        assert tail[j] == ps[j + 1];
      }
      SetFirstUnseen(tail, i - 1, k, v);
      assert SetParam(ps, k, v) == [ps[0]] + SetParam(tail, k, v);
      DropFirst(ps, i);
      ConsAround(ps[0], tail[..i - 1], Param(k, v), WithoutKey(tail[i..], k));
    }
  }

  /** Cutting `s` around position `i > 0` is cutting its tail around `i - 1`. */
  lemma DropFirst<T>(s: seq<T>, i: nat)
    requires 0 < i < |s|
    ensures s[..i] == [s[0]] + s[1..][..i - 1] && s[i + 1..] == s[1..][i..]
  {
  }

  lemma ConsAround<T>(h: T, a: seq<T>, x: T, b: seq<T>)
    ensures [h] + (a + [x] + b) == [h] + a + [x] + b
  {
  }

  /** A query in which sensitive values are masked and sensitive names occur once. */
  ghost predicate Clean(ps: seq<Param>, secret: string -> bool) {
    (forall p :: p in ps && secret(p.key) ==> p.value == Mask)
    && forall i, j :: 0 <= i < j < |ps| && secret(ps[i].key) ==> ps[i].key != ps[j].key
  }

  /** Some pair of `ps` is named `k`. */
  ghost predicate HasKey(ps: seq<Param>, k: string) {
    exists p :: p in ps && p.key == k
  }

  /** Redaction neither adds nor loses a parameter name. */
  lemma {:induction false} ScrubKeepsNames(ps: seq<Param>, k: string, secret: string -> bool)
    ensures HasKey(Scrub(ps, secret), k) <==> HasKey(ps, k)
    decreases |ps|
  {
    if ps != [] {
      var p := ps[0];
      if secret(p.key) {
        ScrubKeepsNames(WithoutKey(ps[1..], p.key), k, secret);
        if k != p.key && HasKey(ps, k) {
          var q :| q in ps && q.key == k;
          assert q in WithoutKey(ps[1..], p.key);
        }
      } else {
        ScrubKeepsNames(ps[1..], k, secret);
        if HasKey(ps, k) && p.key != k {
          var q :| q in ps && q.key == k;
          assert q in ps[1..];
        }
        if HasKey(ps[1..], k) {
          var q :| q in ps[1..] && q.key == k;
          assert q in ps;
        }
      }
    }
  }

  /** The pairs with plain names come out exactly as they went in, in the same order. */
  lemma {:induction false} ScrubKeepsPlain(ps: seq<Param>, secret: string -> bool)
    ensures Seqs.Filter(Scrub(ps, secret), NotSecret(secret)) == Seqs.Filter(ps, NotSecret(secret))
    decreases |ps|
  {
    if ps != [] {
      var p := ps[0];
      if secret(p.key) {
        ScrubKeepsPlain(WithoutKey(ps[1..], p.key), secret);
        WithoutSensitiveKeepsPlain(ps[1..], p.key, secret);
        assert Seqs.Filter(Scrub(ps, secret), NotSecret(secret)) == Seqs.Filter(Scrub(WithoutKey(ps[1..], p.key), secret), NotSecret(secret));
      } else {
        ScrubKeepsPlain(ps[1..], secret);
        assert Scrub(ps, secret)[1..] == Scrub(ps[1..], secret);
      }
    }
  }

  lemma {:induction false} WithoutSensitiveKeepsPlain(ps: seq<Param>, k: string, secret: string -> bool)
    requires secret(k)
    ensures Seqs.Filter(WithoutKey(ps, k), NotSecret(secret)) == Seqs.Filter(ps, NotSecret(secret))
  {
    if ps != [] {
      WithoutSensitiveKeepsPlain(ps[1..], k, secret);
      if ps[0].key != k {
        assert WithoutKey(ps, k)[1..] == WithoutKey(ps[1..], k);
      }
    }
  }

  /** After redaction every sensitive value is masked and every sensitive name occurs once. */
  lemma {:induction false} ScrubIsClean(ps: seq<Param>, secret: string -> bool)
    ensures Clean(Scrub(ps, secret), secret)
    decreases |ps|
  {
    if ps != [] {
      var p := ps[0];
      if secret(p.key) {
        var rest := WithoutKey(ps[1..], p.key);
        ScrubIsClean(rest, secret);
        ScrubKeepsNames(rest, p.key, secret);
        assert !HasKey(rest, p.key);
        ConsClean(Param(p.key, Mask), Scrub(rest, secret), secret);
      } else {
        ScrubIsClean(ps[1..], secret);
        ConsClean(p, Scrub(ps[1..], secret), secret);
      }
    }
  }

  /** A pair in front of a clean query keeps it clean when it is plain, or masked and not repeated. */
  lemma ConsClean(p: Param, r: seq<Param>, secret: string -> bool)
    requires Clean(r, secret)
    requires secret(p.key) ==> p.value == Mask && !HasKey(r, p.key)
    ensures Clean([p] + r, secret)
  {
    var s := [p] + r;
    forall i, j | 0 <= i < j < |s| && secret(s[i].key) ensures s[i].key != s[j].key {
      assert s[j] == r[j - 1] && s[j] in r;
      if i > 0 {
        assert s[i] == r[i - 1];
      }
    }
  }

  /** A clean query is left as it is. */
  lemma {:induction false} CleanIsFixed(ps: seq<Param>, secret: string -> bool)
    requires Clean(ps, secret)
    ensures Scrub(ps, secret) == ps
    decreases |ps|
  {
    if ps != [] {
      var p := ps[0];
      var tail := ps[1..];
      assert Clean(tail, secret) by {
        forall i, j | 0 <= i < j < |tail| && secret(tail[i].key) ensures tail[i].key != tail[j].key {
          assert tail[i] == ps[i + 1] && tail[j] == ps[j + 1];
        }
      }
      if secret(p.key) {
        assert p.value == Mask;
        WithoutAbsentKey(tail, p.key);
        CleanIsFixed(tail, secret);
      } else {
        CleanIsFixed(tail, secret);
      }
    }
  }

  /** Redacting twice is redacting once. */
  lemma ScrubIdempotent(ps: seq<Param>, secret: string -> bool)
    ensures Scrub(Scrub(ps, secret), secret) == Scrub(ps, secret)
  {
    ScrubIsClean(ps, secret);
    CleanIsFixed(Scrub(ps, secret), secret);
  }

  // ---------------------------------------------------------------------
  // GET
  // ---------------------------------------------------------------------

  /** The request sent upstream: the target, the forwarded `accept` header and the fixed user agent. */
  datatype UpstreamRequest = UpstreamRequest(target: string, accept: string, userAgent: string)

  /** Reading the upstream body either yields its bytes (and their decoding as text) or throws. */
  datatype BodyRead = Body(bytes: seq<bv8>, text: string) | BodyFailed(message: string)

  /** What `fetch` does: throw, or answer with a status, an optional `content-type` and a body. */
  datatype FetchOutcome =
    | FetchFailed(message: string)
    | Answered(status: int, contentType: Option<string>, body: BodyRead)

  /** The handler's answer: a JSON error, or the mirrored upstream answer. */
  datatype Response =
    | JsonResponse(status: int, json: Json)
    | Mirrored(status: int, headers: map<string, string>, bytes: seq<bv8>)

  /** The console lines, with the target already redacted. */
  datatype LogLine =
    | MissingUrl
    | BodyPreview(status: int, target: Target, size: nat, contentType: string, preview: string)
    | FetchError(target: Target, message: string)
    | Meta(status: int, target: Target, size: nat, contentType: string)

  /** The largest body whose preview may be logged, and the preview's length. */
  const MaxLoggedBody := 200000
  const MaxPreview := 5000

  /** The message a failed fetch or body read carries; none when the body was read. */
  function FailureMessage(o: FetchOutcome): Option<string> {
    match o
    case FetchFailed(message) => Some(message)
    case Answered(_, _, BodyFailed(message)) => Some(message)
    case Answered(_, _, Body(_, _)) => None
  }

  /**
   * The `try` block of `GET`: the fetch, reading the body and the optional
   * preview line. It returns the locals it sets (status, size, body,
   * content type), the error caught, if any, and the lines logged.
   */
  method Attempt(outcome: FetchOutcome, logBodies: Option<string>, redacted: Target)
    returns (status: int, size: nat, body: seq<bv8>, contentType: string, error: Option<string>, log: seq<LogLine>)
    ensures error == FailureMessage(outcome)
    ensures status == (if outcome.Answered? then outcome.status else 0)
    ensures contentType == (if outcome.Answered? then outcome.contentType.GetOr("") else "")
    ensures error.Some? ==> size == 0 && body == [] && log == []
    ensures error.None? ==> size == |outcome.body.bytes| && body == outcome.body.bytes
    ensures |log| <= 1
    ensures log != [] <==> error.None? && logBodies == Some("1") && size <= MaxLoggedBody
    ensures forall i :: 0 <= i < |log| ==>
              log[i].BodyPreview? && log[i].target == redacted && log[i].size == size && |log[i].preview| <= MaxPreview
              && |log[i].preview| <= |outcome.body.text| && log[i].preview == outcome.body.text[..|log[i].preview|]
  {
    status, size, body, contentType, error, log := 0, 0, [], "", None, [];
    if outcome.FetchFailed? {
      error := Some(outcome.message);
      return;
    }
    status := outcome.status;
    contentType := outcome.contentType.GetOr("");
    match outcome.body
    case BodyFailed(message) =>
      error := Some(message);
    case Body(bytes, text) =>
      size := |bytes|;
      body := bytes;
      if logBodies == Some("1") && size <= MaxLoggedBody {
        SlicePrefix(text, MaxPreview);
        var preview := Slice(text, 0, MaxPreview);
        log := [BodyPreview(status, redacted, size, contentType, preview)];
      }
  }

  /**
   * The headers of a mirrored answer: the upstream content type when it is
   * not empty, and always `cache-control: no-store`; nothing else.
   */
  function MirrorHeaders(contentType: string): (h: map<string, string>)
    ensures "cache-control" in h && h["cache-control"] == "no-store"
    ensures "content-type" in h <==> contentType != ""
    ensures "content-type" in h ==> h["content-type"] == contentType
    ensures h.Keys <= {"content-type", "cache-control"}
  {
    var headers := if contentType != "" then map["content-type" := contentType] else map[];
    headers["cache-control" := "no-store"]
  }

  /** The response of a `GET` whose `url` parameter is missing or empty. */
  const MissingUrlResponse := JsonResponse(400, Obj(map["error" := Str("Missing url")]))

  /** The response of a `GET` whose fetch or body read failed with `message`. */
  function FetchFailedResponse(message: string): Response {
    JsonResponse(502, Obj(map["error" := Str("Upstream fetch failed"), "detail" := Str(message)]))
  }

  /**
   * What forwarding did, given the outcome, the logging switch and the
   * redacted target: the last line logged is the meta line and every line
   * names the redacted target; a failed fetch or body read gives a 502 with
   * the message, and the meta line says 502; a successful one is mirrored
   * with its status, its bytes and the headers of `MirrorHeaders`; a body
   * preview is logged exactly when logging is enabled, the body was read
   * and is at most `MaxLoggedBody` bytes, and it is a prefix of the text of
   * at most `MaxPreview` characters.
   */
  ghost predicate Forwarded(outcome: FetchOutcome, logBodies: Option<string>, redacted: Target,
                            response: Response, log: seq<LogLine>)
  {
    && |log| > 0 && log[|log| - 1].Meta?
    && (forall i :: 0 <= i < |log| ==> !log[i].MissingUrl? && log[i].target == redacted)
    && (FailureMessage(outcome).Some? ==>
          response == FetchFailedResponse(FailureMessage(outcome).value) && log[|log| - 1].status == 502)
    && (FailureMessage(outcome).None? ==>
          response == Mirrored(outcome.status, MirrorHeaders(outcome.contentType.GetOr("")), outcome.body.bytes))
    && (forall i :: 0 <= i < |log| && log[i].BodyPreview? ==>
          FailureMessage(outcome).None?
          && logBodies == Some("1") && log[i].size == |outcome.body.bytes| <= MaxLoggedBody
          && |log[i].preview| <= MaxPreview && |log[i].preview| <= |outcome.body.text|
          && log[i].preview == outcome.body.text[..|log[i].preview|])
    && ((exists i :: 0 <= i < |log| && log[i].BodyPreview?) <==>
          FailureMessage(outcome).None? && logBodies == Some("1") && |outcome.body.bytes| <= MaxLoggedBody)
  }

  /** `redact` as a function of its input. */
  function Redacted(t: Target): Target {
    if t.Parsed? then Parsed(t.url.(params := Scrub(t.url.params, Sensitive))) else t
  }

  /**
   * Everything after the redaction: the `try` block, the `catch` that
   * turns a failure into a 502, the `finally` that logs the meta line, and
   * the mirrored answer.
   */
  method Forward(outcome: FetchOutcome, logBodies: Option<string>, redacted: Target)
    returns (response: Response, log: seq<LogLine>)
    requires redacted.Parsed? ==> Clean(redacted.url.params, Sensitive)
    ensures Forwarded(outcome, logBodies, redacted, response, log)
    ensures forall i :: 0 <= i < |log| && !log[i].MissingUrl? && log[i].target.Parsed? ==>
              Clean(log[i].target.url.params, Sensitive)
  {
    var status, size, bodyForClient, contentType, errorMsg, tried := Attempt(outcome, logBodies, redacted);
    if errorMsg.Some? {
      status := 502;
      log := tried + [FetchError(redacted, errorMsg.value), Meta(status, redacted, size, contentType)];
      assert log == [FetchError(redacted, errorMsg.value), Meta(status, redacted, size, contentType)];
      return FetchFailedResponse(errorMsg.value), log;
    }
    log := tried + [Meta(status, redacted, size, contentType)];
    if tried != [] {
      assert log[0] == tried[0] && log[0].BodyPreview?;
    }
    response := Mirrored(status, MirrorHeaders(contentType), bodyForClient);
  }

  /**
   * `GET(req)`. The request's query, its `accept` header and the
   * `LOG_PROXY_BODIES` variable are inputs; `decode` stands for
   * `decodeURIComponent` and `parse` for `new URL`; `outcome` is what the
   * network does with the request, if one is sent. The result is the
   * response, the request sent upstream (if any) and the console lines in
   * order.
   */
  method Get(query: seq<Param>, accept: Option<string>, logBodies: Option<string>,
             decode: string -> string, parse: string -> Target, outcome: FetchOutcome)
    returns (response: Response, sent: Option<UpstreamRequest>, log: seq<LogLine>)
    // A missing or empty `url`: 400, nothing sent.
    ensures FirstValue(query, "url").None? || FirstValue(query, "url") == Some("") ==>
              response == MissingUrlResponse && sent.None? && log == [MissingUrl]
    // Otherwise one request goes upstream, and the answer and the log are those of forwarding it.
    ensures FirstValue(query, "url").Some? && FirstValue(query, "url") != Some("") ==>
              sent == Some(UpstreamRequest(decode(FirstValue(query, "url").value), accept.GetOr("*/*"), "next-proxy/1.0"))
              && Forwarded(outcome, logBodies, Redacted(parse(sent.value.target)), response, log)
    // Every URL that reaches the console has its sensitive values masked.
    ensures forall i :: 0 <= i < |log| && !log[i].MissingUrl? && log[i].target.Parsed? ==>
              Clean(log[i].target.url.params, Sensitive)
  {
    var urlParam := FirstValue(query, "url");
    if urlParam.None? || urlParam.value == "" {
      return MissingUrlResponse, None, [MissingUrl];
    }
    var target := decode(urlParam.value);
    var request := UpstreamRequest(target, accept.GetOr("*/*"), "next-proxy/1.0");
    sent := Some(request);
    var redacted := Redact(parse(target));
    assert redacted.Parsed? ==> Clean(redacted.url.params, Sensitive) by {
      if redacted.Parsed? {
        ScrubIsClean(parse(target).url.params, Sensitive);
      }
    }
    response, log := Forward(outcome, logBodies, redacted);
  }
}
