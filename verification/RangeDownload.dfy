/** The resumable download of one file into .part (internal/fetch/range.go), against any server, and
    against one that follows sections 13.1.5, 14.2, 15.3.7 and 15.5.17 of RFC 9110.

    A .part that is absent and one that is empty behave alike, so both are the empty sequence.
    Removing a file is assumed to succeed. */
module RangeDownload {
  import opened Numbers
  import opened Text

  type Byte = b: int | 0 <= b < 256
  type Bytes = seq<Byte>

  const DEFAULT_MAX_RETRIES: nat := 5
  const DEFAULT_BUF_SIZE: nat := 0x10_0000

  // ---- What the server does ----

  /** How reading a body ends: at its end, on an error worth retrying or not, or because the caller's
      context is done (a deadline reads as a timeout, which is worth retrying). */
  datatype End = Eof | Broken | Unreadable | Cancelled(timedOut: bool)

  /** What one GET brings. A body is the pieces its reads return. */
  datatype Response =
    | NoResponse(retriable: bool)
    | Full(body: seq<Bytes>, end: End)
    | Partial(contentRange: string, body: seq<Bytes>, end: End)
    | NotSatisfiable
    | OtherStatus(code: int)

  /** What HEAD brings: nothing (and whether that is worth ignoring), a status, or a length and an ETag. */
  datatype Head = NoHead(retriable: bool) | HeadStatus(code: int) | HeadOk(size: int, etag: string)

  /** GET number k of a call, for a .part of some size, with an If-Range (or "" for none). */
  type Server = (nat, nat, string) -> Response

  // ---- What the caller asks ----

  datatype Options = Options(expectedSize: int, etag: string, maxRetries: int, bufSize: int, maxBytes: int) {
    function Retries(): nat {
      if maxRetries <= 0 then DEFAULT_MAX_RETRIES else maxRetries
    }

    function Buffer(): nat {
      if bufSize <= 0 then DEFAULT_BUF_SIZE else bufSize
    }
  }

  datatype Error =
    | HeadFailed | BadStatus(code: int) | SizeMismatch | MaxBytesExceeded | ReadFailed | GetFailed
    | ContextDone | TooManyRetries

  datatype Outcome = Done | Retry | Abort(error: Error)

  datatype Result = Success | Failure(error: Error)

  // ---- Content-Range ----

  const RANGE_PREFIX := "bytes "

  /** The first byte of "bytes A-B/C", when the header has that shape. */
  function ContentRangeStart(s: string): Option<int> {
    if |s| < |RANGE_PREFIX| || s[..|RANGE_PREFIX|] != RANGE_PREFIX then None
    else
      var rest := s[|RANGE_PREFIX|..];
      var dash := IndexOf(rest, '-');
      if dash == |rest| then None else ParseInt(rest[..dash])
  }

  method ParseContentRangeStart(s: string) returns (start: Option<int>)
    ensures start == ContentRangeStart(s)
  {
    if !(RANGE_PREFIX <= s) {
      return None;
    }
    var rest := s[|RANGE_PREFIX|..];
    var dash := 0;
    while dash < |rest| && rest[dash] != '-'
      invariant dash <= |rest| && '-' !in rest[..dash]
    {
      dash := dash + 1;
    }
    if dash == |rest| {
      assert IndexOf(rest, '-') == |rest|;
      return None;
    }
    assert rest == rest[..dash] + ['-'] + rest[dash + 1..];
    IndexOfPrefix(rest[..dash], rest[dash + 1..], '-');
    return ParseInt(rest[..dash]);
  }

  /** A range printed as RFC 9110 section 14.4 has it is read back, when its start fits 64 bits. */
  lemma ContentRangeReadsBack(start: nat, tail: string)
    ensures ContentRangeStart(RANGE_PREFIX + Itoa(start) + "-" + tail)
            == if start <= MAX_INT64 then Some(start) else None
  {
    hide ParseInt, Itoa, Value, IndexOf;
    var s := RANGE_PREFIX + Itoa(start) + "-" + tail;
    var rest := s[|RANGE_PREFIX|..];
    ItoaSpells(start);
    assert rest == Itoa(start) + ['-'] + tail;
    forall i | 0 <= i < |Itoa(start)|
      ensures Itoa(start)[i] != '-'
    {
      assert IsDigit(Itoa(start)[i]);
    }
    IndexOfPrefix(Itoa(start), tail, '-');
    assert rest[..|Itoa(start)|] == Itoa(start);
    ParsePrinted(start);
  }

  /** A header says where a range begins exactly when it is "bytes ", a number of 64 bits, a dash and anything. */
  lemma ContentRangeExactly(s: string, start: int)
    ensures ContentRangeStart(s) == Some(start) <==>
            exists digits, tail ::
              s == "bytes " + digits + "-" + tail && '-' !in digits && ParseInt(digits) == Some(start)
  {
    hide ParseInt, IndexOf;
    if ContentRangeStart(s) == Some(start) {
      var rest := s[6..];
      var dash := IndexOf(rest, '-');
      var digits, tail := rest[..dash], rest[dash + 1..];
      assert s == "bytes " + digits + "-" + tail;
      assert '-' !in digits;
    }
    if digits, tail :| s == "bytes " + digits + "-" + tail && '-' !in digits && ParseInt(digits) == Some(start) {
      var rest := s[6..];
      assert rest == digits + ['-'] + tail;
      IndexOfPrefix(digits, tail, '-');
      assert rest[..|digits|] == digits;
    }
  }

  // ---- One attempt ----

  predicate RetriableStatus(code: int) {
    code == 408 || code == 429 || 500 <= code <= 599
  }

  /** What .part holds after a body is read into it, and what that amounts to. */
  function Streamed(part: Bytes, body: seq<Bytes>, end: End, total: int, maxBytes: int): (Bytes, Outcome)
    decreases |body|
  {
    if body == [] then
      (part, match end
             case Eof => if total > 0 && |part| != total then Retry else Done
             case Broken => Retry
             case Unreadable => Abort(ReadFailed)
             case Cancelled(timedOut) => if timedOut then Retry else Abort(ContextDone))
    else
      var grown := part + body[0];
      if body[0] != [] && maxBytes > 0 && |grown| > maxBytes then (grown, Abort(MaxBytesExceeded))
      else Streamed(grown, body[1..], end, total, maxBytes)
  }

  /** The .part an attempt starts from: none of it when it is larger than the whole file. */
  function Kept(part: Bytes, total: int): Bytes {
    if total > 0 && |part| > total then [] else part
  }

  /** Whether an attempt asks the server at all. */
  predicate Asks(part: Bytes, total: int) {
    !(total > 0 && |Kept(part, total)| == total)
  }

  function Received(part: Bytes, r: Response, total: int, maxBytes: int): (Bytes, Outcome) {
    match r
    case NoResponse(retriable) => (part, if retriable then Retry else Abort(GetFailed))
    case Full(body, end) => Streamed([], body, end, total, maxBytes)
    case Partial(contentRange, body, end) =>
      var start := ContentRangeStart(contentRange);
      if start.Some? && start.value != |part| then ([], Retry) else Streamed(part, body, end, total, maxBytes)
    case NotSatisfiable => ([], Retry)
    case OtherStatus(code) => (part, if RetriableStatus(code) then Retry else Abort(BadStatus(code)))
  }

  function IfRange(part: Bytes, etag: string): string {
    if part == [] then "" else etag
  }

  function Attempted(server: Server, k: nat, part: Bytes, total: int, etag: string, maxBytes: int): (Bytes, Outcome) {
    var kept := Kept(part, total);
    if !Asks(part, total) then (kept, Done)
    else Received(kept, server(k, |kept|, IfRange(kept, etag)), total, maxBytes)
  }

  // ---- One call ----

  /** A finished call: .part, the result, how many GETs it made, and .part after each attempt. */
  datatype Call = Call(part: Bytes, result: Result, gets: nat, trace: seq<Bytes>)

  /** The attempts from number k on; woken(k) says whether the wait before attempt k was cut short. */
  function Attempts(opts: Options, server: Server, woken: nat -> bool, part: Bytes, total: int, etag: string,
                    k: nat): Call
    decreases opts.Retries() + 1 - k
  {
    if k > opts.Retries() then Call(part, Failure(TooManyRetries), 0, [])
    else if k > 0 && woken(k) then Call(part, Failure(ContextDone), 0, [])
    else
      var (next, o) := Attempted(server, k, part, total, etag, opts.maxBytes);
      var gets := if Asks(part, total) then 1 else 0;
      match o
      case Done => Call(next, Success, gets, [next])
      case Abort(error) => Call(next, Failure(error), gets, [next])
      case Retry =>
        var rest := Attempts(opts, server, woken, next, total, etag, k + 1);
        rest.(gets := gets + rest.gets, trace := [next] + rest.trace)
  }

  /** What HEAD is taken to say: a length (0 or less when unknown) and an ETag, or that the call is over. */
  datatype Meta = Known(total: int, etag: string) | Stop(error: Error)

  function Probed(opts: Options, head: Head): Meta {
    var meta := match head {
      case NoHead(retriable) => if retriable then Known(0, "") else Stop(HeadFailed)
      case HeadStatus(code) => if code == 405 || code == 403 then Known(0, "") else Stop(BadStatus(code))
      case HeadOk(size, etag) => Known(size, etag)
    };
    if meta.Stop? then meta
    else if opts.expectedSize > 0 && meta.total > 0 && opts.expectedSize != meta.total then Stop(SizeMismatch)
    else meta.(total := if meta.total <= 0 then opts.expectedSize else meta.total)
  }

  /** The .part a call starts from: none of it when the caller's ETag is not the server's. */
  function Resumed(opts: Options, etag: string, part: Bytes): Bytes {
    if opts.etag != "" && etag != "" && opts.etag != etag then [] else part
  }

  /** A whole call on a .part and a destination: .part, the destination, the result, and the attempts made. */
  datatype Finished = Finished(part: Bytes, dest: Option<Bytes>, result: Result, gets: nat, trace: seq<Bytes>)

  function Downloaded(opts: Options, head: Head, server: Server, woken: nat -> bool,
                      part: Bytes, dest: Option<Bytes>): Finished
  {
    match Probed(opts, head)
    case Stop(error) => Finished(part, dest, Failure(error), 0, [])
    case Known(total, etag) =>
      var resumed := Resumed(opts, etag, part);
      if total > 0 && dest.Some? && |dest.value| == total then Finished(resumed, dest, Success, 0, [])
      else
        var call := Attempts(opts, server, woken, resumed, total, if etag != "" then etag else opts.etag, 0);
        if call.result.Success? then Finished([], Some(call.part), Success, call.gets, call.trace)
        else Finished(call.part, dest, call.result, call.gets, call.trace)
  }

  // ---- Against any server ----

  /** Reads return at most a buffer. */
  ghost predicate Buffered(server: Server, size: nat) {
    forall k: nat, n: nat, tag: string, i: nat ::
      var r := server(k, n, tag);
      (r.Full? || r.Partial?) && i < |r.body| ==> |r.body[i]| <= size
  }

  function Max(a: int, b: int): int {
    if a > b then a else b
  }

  lemma {:induction false} StreamIsSized(part: Bytes, body: seq<Bytes>, end: End, total: int, maxBytes: int, size: nat)
    requires forall i | 0 <= i < |body| :: |body[i]| <= size
    ensures var (after, o) := Streamed(part, body, end, total, maxBytes);
            && (o == Done && total > 0 ==> |after| == total)
            && (maxBytes > 0 ==> |after| <= Max(|part|, maxBytes) + size)
            && (maxBytes > 0 && !o.Abort? ==> |after| <= Max(|part|, maxBytes))
    decreases |body|
  {
    if body != [] {
      StreamIsSized(part + body[0], body[1..], end, total, maxBytes, size);
    }
  }

  lemma AttemptIsSized(server: Server, k: nat, part: Bytes, total: int, etag: string, maxBytes: int, size: nat)
    requires Buffered(server, size)
    ensures var (after, o) := Attempted(server, k, part, total, etag, maxBytes);
            && (o == Done && total > 0 ==> |after| == total)
            && (maxBytes > 0 ==> |after| <= Max(|part|, maxBytes) + size)
            && (maxBytes > 0 && !o.Abort? ==> |after| <= Max(|part|, maxBytes))
  {
    hide Streamed, ContentRangeStart;
    var kept := Kept(part, total);
    var r := server(k, |kept|, IfRange(kept, etag));
    match r
    case Full(body, end) => StreamIsSized([], body, end, total, maxBytes, size);
    case Partial(_, body, end) => StreamIsSized(kept, body, end, total, maxBytes, size);
    case _ =>
  }

  lemma {:induction false} AttemptsAreSized(opts: Options, server: Server, woken: nat -> bool, part: Bytes,
                                            total: int, etag: string, k: nat)
    requires Buffered(server, opts.Buffer()) && k <= opts.Retries() + 1
    ensures var c := Attempts(opts, server, woken, part, total, etag, k);
            && (c.result.Success? && total > 0 ==> |c.part| == total)
            && c.gets <= opts.Retries() + 1 - k
            && (opts.maxBytes > 0 ==> |c.part| <= Max(|part|, opts.maxBytes) + opts.Buffer())
            && (opts.maxBytes > 0 ==>
                  forall i | 0 <= i < |c.trace| :: |c.trace[i]| <= Max(|part|, opts.maxBytes) + opts.Buffer())
    decreases opts.Retries() + 1 - k
  {
    hide Attempted, Buffered;
    if k <= opts.Retries() {
      var (next, o) := Attempted(server, k, part, total, etag, opts.maxBytes);
      AttemptIsSized(server, k, part, total, etag, opts.maxBytes, opts.Buffer());
      if o == Retry {
        AttemptsAreSized(opts, server, woken, next, total, etag, k + 1);
      }
    }
  }

  /** Whatever the server does: a successful call with a known total leaves a file of exactly that size,
      no call makes more GETs than one and its retries, and with a cap .part never passes the larger of
      the cap and its starting size by more than one buffer. */
  lemma AnyServer(opts: Options, head: Head, server: Server, woken: nat -> bool, part: Bytes, dest: Option<Bytes>)
    requires Buffered(server, opts.Buffer())
    ensures var f := Downloaded(opts, head, server, woken, part, dest);
            var meta := Probed(opts, head);
            && (f.result.Success? ==> meta.Known? && f.dest.Some? && (meta.total > 0 ==> |f.dest.value| == meta.total))
            && f.gets <= opts.Retries() + 1
            && (opts.maxBytes > 0 ==>
                  && |f.part| <= Max(|part|, opts.maxBytes) + opts.Buffer()
                  && forall i | 0 <= i < |f.trace| :: |f.trace[i]| <= Max(|part|, opts.maxBytes) + opts.Buffer())
  {
    hide Attempts, Buffered;
    var meta := Probed(opts, head);
    if meta.Known? {
      AttemptsAreSized(opts, server, woken, Resumed(opts, meta.etag, part), meta.total,
                       if meta.etag != "" then meta.etag else opts.etag, 0);
    }
  }

  // ---- Against an honest server ----

  /** The versions the object goes through, and which is served at each GET. */
  datatype Origin = Origin(content: nat -> Bytes, etag: nat -> string, served: nat -> nat) {
    /** Every version has an ETag of its own, and no version comes back after a later one. */
    ghost predicate Ok() {
      && (forall v: nat, w: nat | etag(v) == etag(w) :: v == w)
      && (forall v: nat :: etag(v) != "")
      && (forall k: nat, m: nat | k <= m :: served(k) <= served(m))
    }
  }

  function Concat(body: seq<Bytes>): Bytes {
    if body == [] then [] else body[0] + Concat(body[1..])
  }

  /** A 200 carries the version served from its start; a 206 answers only a request for a range, only
      when If-Range is absent or names the version served, and carries that version from the byte asked
      for, with a Content-Range that says so if it has one. Either may be cut anywhere. */
  ghost predicate HonestReply(o: Origin, k: nat, n: nat, ifRange: string, r: Response) {
    var content := o.content(o.served(k));
    match r
    case Full(body, _) => Concat(body) <= content
    case Partial(contentRange, body, _) =>
      && 0 < n <= |content| && (ifRange == "" || ifRange == o.etag(o.served(k)))
      && Concat(body) <= content[n..]
      && (contentRange == "" || exists tail :: contentRange == RANGE_PREFIX + Itoa(n) + "-" + tail)
    case _ => true
  }

  ghost predicate Honest(o: Origin, server: Server) {
    forall k: nat, n: nat, ifRange: string :: HonestReply(o, k, n, ifRange, server(k, n, ifRange))
  }

  /** Before GET k, .part is part of version v, or of another version once v is no longer served. */
  ghost predicate OneVersion(o: Origin, v: nat, k: nat, part: Bytes) {
    part <= o.content(v) || (o.served(k) > v && exists u: nat :: part <= o.content(u))
  }

  lemma {:induction false} StreamStaysPrefix(part: Bytes, body: seq<Bytes>, end: End, total: int, maxBytes: int,
                                             whole: Bytes)
    requires part + Concat(body) <= whole
    ensures Streamed(part, body, end, total, maxBytes).0 <= whole
    decreases |body|
  {
    if body != [] {
      assert part + Concat(body) == (part + body[0]) + Concat(body[1..]);
      StreamStaysPrefix(part + body[0], body[1..], end, total, maxBytes, whole);
    }
  }

  /** One attempt against an honest server, with the ETag of the version HEAD described. */
  lemma AttemptKeepsVersion(o: Origin, server: Server, v: nat, k: nat, part: Bytes, total: int, maxBytes: int)
    requires o.Ok() && Honest(o, server) && v <= o.served(k) && OneVersion(o, v, k, part)
    ensures var (after, _) := Attempted(server, k, part, total, o.etag(v), maxBytes);
            OneVersion(o, v, k, after) && OneVersion(o, v, k + 1, after)
  {
    hide Streamed, ContentRangeStart, Concat, IndexOf;
    var kept := Kept(part, total);
    var tag := IfRange(kept, o.etag(v));
    var r := server(k, |kept|, tag);
    assert o.served(k) <= o.served(k + 1);
    assert HonestReply(o, k, |kept|, tag, r);
    assert [] <= o.content(v);
    match r
    case Full(body, end) =>
      assert [] + Concat(body) == Concat(body);
      StreamStaysPrefix([], body, end, total, maxBytes, o.content(o.served(k)));
    case Partial(_, body, end) =>
      assert o.served(k) == v;
      assert kept <= o.content(v);
      assert kept + Concat(body) <= o.content(v);
      StreamStaysPrefix(kept, body, end, total, maxBytes, o.content(v));
    case _ =>
  }

  lemma {:induction false} AttemptsKeepVersion(opts: Options, o: Origin, server: Server, woken: nat -> bool, v: nat,
                                               part: Bytes, total: int, k: nat)
    requires o.Ok() && Honest(o, server) && v <= o.served(k) && OneVersion(o, v, k, part)
    ensures var c := Attempts(opts, server, woken, part, total, o.etag(v), k);
            && (exists u: nat :: c.part <= o.content(u))
            && forall i | 0 <= i < |c.trace| :: exists u: nat :: c.trace[i] <= o.content(u)
    decreases opts.Retries() + 1 - k
  {
    hide Attempted, Honest;
    assert o.served(k) <= o.served(k + 1);
    if k <= opts.Retries() {
      var (next, out) := Attempted(server, k, part, total, o.etag(v), opts.maxBytes);
      AttemptKeepsVersion(o, server, v, k, part, total, opts.maxBytes);
      assert exists u: nat :: next <= o.content(u);
      if out == Retry {
        AttemptsKeepVersion(opts, o, server, woken, v, next, total, k + 1);
      }
    }
  }

  /** With the ETag HEAD gave, a .part that is empty or the start of the version HEAD described, and an
      honest server that may cut any stream and replace the object between GETs: after every attempt .part
      is the start of one single version, and when the call downloads and succeeds with a known total, the
      file is exactly the first total bytes of one version. */
  lemma HonestServer(opts: Options, o: Origin, size: int, v: nat, server: Server, woken: nat -> bool,
                     part: Bytes, dest: Option<Bytes>)
    requires o.Ok() && Honest(o, server) && Buffered(server, opts.Buffer())
    requires v <= o.served(0) && part <= o.content(v)
    ensures var f := Downloaded(opts, HeadOk(size, o.etag(v)), server, woken, part, dest);
            var meta := Probed(opts, HeadOk(size, o.etag(v)));
            && (exists u: nat :: f.part <= o.content(u))
            && (forall i | 0 <= i < |f.trace| :: exists u: nat :: f.trace[i] <= o.content(u))
            && (f.result.Success? && f.trace != [] && meta.total > 0 ==>
                  exists u: nat :: meta.total <= |o.content(u)| && f.dest == Some(o.content(u)[..meta.total]))
  {
    hide Attempts, Honest, Buffered;
    var head := HeadOk(size, o.etag(v));
    var meta := Probed(opts, head);
    assert part <= o.content(v) && [] <= o.content(v);
    if meta.Known? {
      var resumed := Resumed(opts, meta.etag, part);
      AttemptsKeepVersion(opts, o, server, woken, v, resumed, meta.total, 0);
      AttemptsAreSized(opts, server, woken, resumed, meta.total, o.etag(v), 0);
      var c := Attempts(opts, server, woken, resumed, meta.total, o.etag(v), 0);
      var u: nat :| c.part <= o.content(u);
      if c.result.Success? && meta.total > 0 {
        assert c.part == o.content(u)[..meta.total];
      }
    }
  }

  // ---- How a call ends ----

  /** The range begins at another byte than the one asked for. */
  predicate Elsewhere(contentRange: string, n: nat) {
    ContentRangeStart(contentRange).Some? && ContentRangeStart(contentRange).value != n
  }

  predicate Uncapped(file: Bytes, maxBytes: int) {
    maxBytes <= 0 || |file| <= maxBytes
  }

  /** The body broke, timed out or came up short. */
  predicate Unfinished(end: End, file: Bytes, total: int) {
    end == Broken || end == Cancelled(true) || (end == Eof && total > 0 && |file| != total)
  }

  /** A GET from that start brings something worth another, and leaves next as .part. */
  predicate WorthAnother(r: Response, from: Bytes, next: Bytes, total: int, maxBytes: int) {
    match r
    case NoResponse(retriable) => retriable && next == from
    case OtherStatus(code) => (code == 408 || code == 429 || 500 <= code <= 599) && next == from
    case NotSatisfiable => next == []
    case Full(body, end) => next == Concat(body) && Unfinished(end, next, total) && Uncapped(next, maxBytes)
    case Partial(contentRange, body, end) =>
      if Elsewhere(contentRange, |from|) then next == []
      else next == from + Concat(body) && Unfinished(end, next, total) && Uncapped(next, maxBytes)
  }

  /** It brings the file: a body that ends cleanly with .part at its total. */
  predicate Delivers(r: Response, from: Bytes, file: Bytes, total: int, maxBytes: int) {
    && (r.Full? || (r.Partial? && !Elsewhere(r.contentRange, |from|))) && r.end == Eof
    && file == (if r.Full? then [] else from) + Concat(r.body)
    && (total > 0 ==> |file| == total) && Uncapped(file, maxBytes)
  }

  /** It brings what ends the call: no answer that is worth another, a status that is not, a body that cannot be
      read or is cancelled, or a piece that passes the cap. */
  predicate Refuses(r: Response, from: Bytes, next: Bytes, maxBytes: int, error: Error) {
    match r
    case NoResponse(retriable) => !retriable && next == from && error == GetFailed
    case OtherStatus(code) =>
      code != 408 && code != 429 && !(500 <= code <= 599) && next == from && error == BadStatus(code)
    case NotSatisfiable => false
    case Full(body, end) => Cuts([], body, end, next, maxBytes, error)
    case Partial(contentRange, body, end) =>
      !Elsewhere(contentRange, |from|) && Cuts(from, body, end, next, maxBytes, error)
  }

  predicate Cuts(start: Bytes, body: seq<Bytes>, end: End, next: Bytes, maxBytes: int, error: Error) {
    || (next == start + Concat(body) && Uncapped(next, maxBytes) &&
        ((end == Unreadable && error == ReadFailed) || (end == Cancelled(false) && error == ContextDone)))
    || (error == MaxBytesExceeded && maxBytes > 0 &&
        exists c | 0 <= c < |body| ::
          && body[c] != [] && next == start + Concat(body[..c + 1]) && |next| > maxBytes
          && |start + Concat(body[..c])| <= maxBytes)
  }

  /** Nothing of a .part that is larger than the file is kept. */
  function Start(part: Bytes, total: int): Bytes {
    if total > 0 && |part| > total then [] else part
  }

  /** What GET k brings when .part holds that. */
  function Brought(server: Server, k: nat, part: Bytes, total: int, etag: string): Response {
    var from := Start(part, total);
    server(k, |from|, if from == [] then "" else etag)
  }

  /** GET k is made for each .part but the last, brings something worth another, and leaves the next. */
  ghost predicate Tried(opts: Options, server: Server, total: int, etag: string, parts: seq<Bytes>) {
    forall k | 0 <= k < |parts| - 1 ::
      && !(total > 0 && |Start(parts[k], total)| == total)
      && WorthAnother(Brought(server, k, parts[k], total, etag), Start(parts[k], total), parts[k + 1], total,
                      opts.maxBytes)
  }

  lemma {:induction false} StreamRuns(part: Bytes, body: seq<Bytes>, end: End, total: int, maxBytes: int)
    requires Uncapped(part + Concat(body), maxBytes)
    ensures var file := part + Concat(body);
            Streamed(part, body, end, total, maxBytes) ==
              (file, if Unfinished(end, file, total) then Retry
                     else if end == Eof then Done
                     else if end == Unreadable then Abort(ReadFailed)
                     else Abort(ContextDone))
    decreases |body|
  {
    if body == [] {
      assert part + Concat(body) == part;
    } else {
      assert part + Concat(body) == (part + body[0]) + Concat(body[1..]);
      StreamRuns(part + body[0], body[1..], end, total, maxBytes);
    }
  }

  lemma {:induction false} StreamHitsCap(part: Bytes, body: seq<Bytes>, end: End, total: int, maxBytes: int, c: nat)
    requires c < |body| && body[c] != [] && maxBytes > 0
    requires |part + Concat(body[..c])| <= maxBytes < |part + Concat(body[..c + 1])|
    ensures Streamed(part, body, end, total, maxBytes) == (part + Concat(body[..c + 1]), Abort(MaxBytesExceeded))
    decreases |body|
  {
    var grown := part + body[0];
    assert body[..c + 1] == [body[0]] + body[1..][..c];
    assert [body[0]] + body[1..][..c] != [] && ([body[0]] + body[1..][..c])[1..] == body[1..][..c];
    assert part + Concat(body[..c + 1]) == grown + Concat(body[1..][..c]);
    if c == 0 {
      assert body[1..][..0] == [] && grown + [] == grown;
    } else {
      assert body[..c] == [body[0]] + body[1..][..c - 1];
      assert ([body[0]] + body[1..][..c - 1])[1..] == body[1..][..c - 1];
      assert part + Concat(body[..c]) == grown + Concat(body[1..][..c - 1]);
      assert body[1..][c - 1] == body[c];
      StreamHitsCap(grown, body[1..], end, total, maxBytes, c - 1);
    }
  }

  /** One attempt, by what its GET brings. */
  lemma AttemptIs(server: Server, k: nat, part: Bytes, total: int, etag: string, maxBytes: int)
    requires !(total > 0 && |Start(part, total)| == total)
    ensures Asks(part, total)
    ensures var r, from := Brought(server, k, part, total, etag), Start(part, total);
            var a := Attempted(server, k, part, total, etag, maxBytes);
            && (forall next :: WorthAnother(r, from, next, total, maxBytes) ==> a == (next, Retry))
            && (forall file :: Delivers(r, from, file, total, maxBytes) ==> a == (file, Done))
            && (forall next, error :: Refuses(r, from, next, maxBytes, error) ==> a == (next, Abort(error)))
  {
    hide Streamed, ContentRangeStart, Concat;
    var r, from := Brought(server, k, part, total, etag), Start(part, total);
    match r
    case Full(body, end) => BodyIs([], body, end, total, maxBytes);
    case Partial(_, body, end) => BodyIs(from, body, end, total, maxBytes);
    case _ =>
  }

  lemma BodyIs(start: Bytes, body: seq<Bytes>, end: End, total: int, maxBytes: int)
    ensures var s, file := Streamed(start, body, end, total, maxBytes), start + Concat(body);
            && (start == [] ==> file == Concat(body))
            && (Uncapped(file, maxBytes) && Unfinished(end, file, total) ==> s == (file, Retry))
            && (Uncapped(file, maxBytes) && end == Eof && (total > 0 ==> |file| == total) ==> s == (file, Done))
            && (forall next, error :: Cuts(start, body, end, next, maxBytes, error) ==> s == (next, Abort(error)))
  {
    hide Streamed, Concat;
    if Uncapped(start + Concat(body), maxBytes) {
      StreamRuns(start, body, end, total, maxBytes);
    }
    forall next, error | Cuts(start, body, end, next, maxBytes, error)
      ensures Streamed(start, body, end, total, maxBytes) == (next, Abort(error))
    {
      if error == MaxBytesExceeded {
        var c :| 0 <= c < |body| && body[c] != [] && next == start + Concat(body[..c + 1]) && |next| > maxBytes
                 && |start + Concat(body[..c])| <= maxBytes;
        StreamHitsCap(start, body, end, total, maxBytes, c);
      }
    }
  }

  /** After k GETs that were worth another, the call is where the last of them left it. */
  lemma {:induction false} AttemptsGoOn(opts: Options, server: Server, woken: nat -> bool, total: int, etag: string,
                                        parts: seq<Bytes>, k: nat)
    requires Tried(opts, server, total, etag, parts) && k < |parts| <= opts.Retries() + 2
    requires forall i | 0 < i < |parts| - 1 :: !woken(i)
    ensures Attempts(opts, server, woken, parts[0], total, etag, 0)
            == After(k, parts[1..k + 1], Attempts(opts, server, woken, parts[k], total, etag, k))
    decreases k
  {
    hide Attempted, Asks, WorthAnother, Brought, Attempts, After;
    if k == 0 {
      assert parts[1..1] == [];
      AfterNothing(Attempts(opts, server, woken, parts[0], total, etag, 0));
    } else {
      AttemptsGoOn(opts, server, woken, total, etag, parts, k - 1);
      AttemptIs(server, k - 1, parts[k - 1], total, etag, opts.maxBytes);
      assert Attempted(server, k - 1, parts[k - 1], total, etag, opts.maxBytes) == (parts[k], Retry);
      AttemptsUnroll(opts, server, woken, parts[k - 1], total, etag, k - 1, k - 1, parts[1..k]);
      assert parts[1..k] + [parts[k]] == parts[1..k + 1];
    }
  }

  /** A call that has come so far, and how it ends with one GET more, if it makes one. */
  lemma AttemptsEnd(opts: Options, server: Server, woken: nat -> bool, total: int, etag: string, part: Bytes, j: nat,
                    trace: seq<Bytes>)
    ensures var c := After(j, trace, Attempts(opts, server, woken, part, total, etag, j));
            var r, from := Brought(server, j, part, total, etag), Start(part, total);
            if j > opts.Retries() then c == Call(part, Failure(TooManyRetries), j, trace)
            else if j > 0 && woken(j) then c == Call(part, Failure(ContextDone), j, trace)
            else if total > 0 && |from| == total then c == Call(from, Success, j, trace + [from])
            else
              && (forall file :: Delivers(r, from, file, total, opts.maxBytes) ==>
                                   c == Call(file, Success, j + 1, trace + [file]))
              && (forall next, error :: Refuses(r, from, next, opts.maxBytes, error) ==>
                                          c == Call(next, Failure(error), j + 1, trace + [next]))
  {
    hide Attempted, Delivers, Refuses, WorthAnother, Brought, Attempts, After;
    AttemptsUnroll(opts, server, woken, part, total, etag, j, j, trace);
    if total > 0 && |Start(part, total)| == total {
      WholeIsDone(server, j, part, total, etag, opts.maxBytes);
    } else {
      AttemptIs(server, j, part, total, etag, opts.maxBytes);
    }
  }

  lemma WholeIsDone(server: Server, k: nat, part: Bytes, total: int, etag: string, maxBytes: int)
    requires total > 0 && |Start(part, total)| == total
    ensures !Asks(part, total) && Attempted(server, k, part, total, etag, maxBytes) == (Start(part, total), Done)
  {
  }

  /** What a call learns before its first GET: HEAD's size and ETag, or neither when HEAD is not allowed or fails in
      passing; the size the caller expects when HEAD gives none, and the caller's ETag when HEAD has none; and a
      .part to go on from, unless the caller's ETag is out of date. */
  predicate Begins(opts: Options, head: Head, part: Bytes, total: int, etag: string, first: Bytes) {
    var (size, tag) := if head.HeadOk? then (head.size, head.etag) else (0, "");
    && (head.NoHead? ==> head.retriable) && (head.HeadStatus? ==> head.code == 405 || head.code == 403)
    && !(opts.expectedSize > 0 && size > 0 && opts.expectedSize != size)
    && total == (if size > 0 then size else opts.expectedSize)
    && etag == (if tag != "" then tag else opts.etag)
    && first == if opts.etag != "" && tag != "" && opts.etag != tag then [] else part
  }

  /** A download that goes on as long as what it is brought is worth another GET, five more times unless the caller
      says how often: it succeeds with the file the last GET delivers, or without one once .part has its total; it
      fails with what a GET ended it with, when a wait is cut short, or when no retries are left. */
  lemma DownloadEnds(opts: Options, head: Head, server: Server, woken: nat -> bool, part: Bytes, dest: Option<Bytes>,
                     total: int, etag: string, parts: seq<Bytes>)
    requires parts != [] && Begins(opts, head, part, total, etag, parts[0])
    requires !(total > 0 && dest.Some? && |dest.value| == total)
    requires Tried(opts, server, total, etag, parts)
    requires |parts| - 1 <= (if opts.maxRetries > 0 then opts.maxRetries else 5) + 1
    requires forall i | 0 < i < |parts| - 1 :: !woken(i)
    ensures var f := Downloaded(opts, head, server, woken, part, dest);
            var j, last, retries := |parts| - 1, parts[|parts| - 1], if opts.maxRetries > 0 then opts.maxRetries else 5;
            var r, from := Brought(server, j, last, total, etag), Start(last, total);
            if j > retries then f == Finished(last, dest, Failure(TooManyRetries), j, parts[1..])
            else if j > 0 && woken(j) then f == Finished(last, dest, Failure(ContextDone), j, parts[1..])
            else if total > 0 && |from| == total then f == Finished([], Some(from), Success, j, parts[1..] + [from])
            else
              && (forall file :: Delivers(r, from, file, total, opts.maxBytes) ==>
                                   f == Finished([], Some(file), Success, j + 1, parts[1..] + [file]))
              && (forall next, error :: Refuses(r, from, next, opts.maxBytes, error) ==>
                                          f == Finished(next, dest, Failure(error), j + 1, parts[1..] + [next]))
  {
    hide Tried, Delivers, Refuses, Brought, Attempts, Start;
    var j, last := |parts| - 1, parts[|parts| - 1];
    AttemptsGoOn(opts, server, woken, total, etag, parts, j);
    assert parts[1..j + 1] == parts[1..];
    AttemptsEnd(opts, server, woken, total, etag, last, j, parts[1..]);
    var c := Attempts(opts, server, woken, parts[0], total, etag, 0);
    CallIs(opts, head, server, woken, part, dest, total, etag, parts[0]);
    hide Downloaded, After;
  }

  lemma CallIs(opts: Options, head: Head, server: Server, woken: nat -> bool, part: Bytes, dest: Option<Bytes>,
               total: int, etag: string, first: Bytes)
    requires Begins(opts, head, part, total, etag, first)
    ensures Downloaded(opts, head, server, woken, part, dest) ==
              if total > 0 && dest.Some? && |dest.value| == total then Finished(first, dest, Success, 0, [])
              else
                var c := Attempts(opts, server, woken, first, total, etag, 0);
                if c.result.Success? then Finished([], Some(c.part), Success, c.gets, c.trace)
                else Finished(c.part, dest, c.result, c.gets, c.trace)
  {
    hide Attempts;
  }

  /** A HEAD that fails for good, or gives another size than the caller expects, ends the call before any GET; and so
      does a file that is there already, with the size. */
  lemma DownloadStops(opts: Options, head: Head, server: Server, woken: nat -> bool, part: Bytes, dest: Option<Bytes>)
    ensures var f := Downloaded(opts, head, server, woken, part, dest);
            match head
            case NoHead(retriable) => !retriable ==> f == Finished(part, dest, Failure(HeadFailed), 0, [])
            case HeadStatus(code) =>
              code != 405 && code != 403 ==> f == Finished(part, dest, Failure(BadStatus(code)), 0, [])
            case HeadOk(size, _) =>
              opts.expectedSize > 0 && size > 0 && opts.expectedSize != size ==>
                f == Finished(part, dest, Failure(SizeMismatch), 0, [])
    ensures forall total, etag, first | Begins(opts, head, part, total, etag, first) && total > 0 && dest.Some?
                                        && |dest.value| == total ::
              Downloaded(opts, head, server, woken, part, dest) == Finished(first, dest, Success, 0, [])
  {
    hide Attempts;
  }

  // ---- Whole versions ----

  /** A body that ends cleanly ends where the version it is of does. */
  ghost predicate EndsWhole(o: Origin, server: Server) {
    forall k: nat, n: nat, tag: string ::
      var r, content := server(k, n, tag), o.content(o.served(k));
      && (r.Full? && r.end == Eof ==> Concat(r.body) == content)
      && (r.Partial? && r.end == Eof && n <= |content| ==> Concat(r.body) == content[n..])
  }

  predicate Breaks(r: Response) {
    (r.Full? || r.Partial?) && (r.end == Broken || r.end == Cancelled(true))
  }

  /** The reply to GET k breaks, or times out. */
  ghost predicate Broke(server: Server, k: nat) {
    exists n: nat, tag: string :: Breaks(server(k, n, tag))
  }

  lemma {:induction false} StreamEnds(part: Bytes, body: seq<Bytes>, end: End, total: int, maxBytes: int)
    ensures var (after, out) := Streamed(part, body, end, total, maxBytes);
            && (out == Done ==> end == Eof && after == part + Concat(body))
            && (out == Retry && |after| == total > 0 ==> end == Broken || end == Cancelled(true))
    decreases |body|
  {
    if body == [] {
      assert part + Concat(body) == part;
    } else {
      assert part + Concat(body) == (part + body[0]) + Concat(body[1..]);
      StreamEnds(part + body[0], body[1..], end, total, maxBytes);
    }
  }

  /** An attempt that asks and is done leaves the version served; one that is to be made again though .part
      has its total leaves a start of that version, whose stream broke. */
  lemma AttemptIsWhole(o: Origin, server: Server, v: nat, k: nat, part: Bytes, total: int, maxBytes: int)
    requires o.Ok() && Honest(o, server) && EndsWhole(o, server) && OneVersion(o, v, k, part) && Asks(part, total)
    ensures var (after, out) := Attempted(server, k, part, total, o.etag(v), maxBytes);
            && (out == Done ==> after == o.content(o.served(k)))
            && (out == Retry && |after| == total > 0 ==> after <= o.content(o.served(k)) && Broke(server, k))
  {
    hide Streamed, ContentRangeStart, Concat, IndexOf, Honest, Itoa;
    var kept, content := Kept(part, total), o.content(o.served(k));
    var tag := IfRange(kept, o.etag(v));
    var r := server(k, |kept|, tag);
    assert HonestReply(o, k, |kept|, tag, r) by {
      HonestlyReplied(o, server, k, |kept|, tag);
    }
    match r
    case Full(body, end) =>
      assert [] + Concat(body) == Concat(body);
      StreamEnds([], body, end, total, maxBytes);
      StreamStaysPrefix([], body, end, total, maxBytes, content);
    case Partial(_, body, end) =>
      assert o.served(k) == v && kept <= content;
      assert kept + content[|kept|..] == content;
      StreamEnds(kept, body, end, total, maxBytes);
      StreamStaysPrefix(kept, body, end, total, maxBytes, content);
    case _ =>
  }

  lemma HonestlyReplied(o: Origin, server: Server, k: nat, n: nat, tag: string)
    requires Honest(o, server)
    ensures HonestReply(o, k, n, tag, server(k, n, tag))
  {
  }

  /** Whether the attempt that ended a call asked the server. */
  predicate LastAsked(c: Call) {
    c.gets == |c.trace|
  }

  /** How a successful call from GET k on ends: with the version served to the last GET, or without a last one,
      .part having its total from the start or from a stream that broke. */
  ghost predicate EndedWhole(o: Origin, server: Server, part: Bytes, total: int, k: nat, c: Call) {
    var n := |c.trace|;
    && n > 0 && n - 1 <= c.gets <= n
    && if LastAsked(c) then c.part == o.content(o.served(k + n - 1))
       else
         && |c.part| == total > 0
         && if n == 1 then c.part == part else c.part <= o.content(o.served(k + n - 2)) && Broke(server, k + n - 2)
  }

  /** An attempt to be made again, and the rest of the call. */
  lemma EndedLater(o: Origin, server: Server, part: Bytes, next: Bytes, total: int, k: nat, rest: Call)
    requires EndedWhole(o, server, next, total, k + 1, rest)
    requires |next| == total > 0 ==> next <= o.content(o.served(k)) && Broke(server, k)
    ensures EndedWhole(o, server, part, total, k, rest.(gets := 1 + rest.gets, trace := [next] + rest.trace))
  {
    hide Broke;
  }

  lemma {:induction false} AttemptsAreWhole(opts: Options, o: Origin, server: Server, woken: nat -> bool, v: nat,
                                            part: Bytes, total: int, k: nat)
    requires o.Ok() && Honest(o, server) && EndsWhole(o, server) && v <= o.served(k) && OneVersion(o, v, k, part)
    ensures var c := Attempts(opts, server, woken, part, total, o.etag(v), k);
            c.result.Success? ==> EndedWhole(o, server, part, total, k, c)
    decreases opts.Retries() + 1 - k
  {
    hide Attempted, Honest, EndsWhole, Broke, Asks, OneVersion;
    if k <= opts.Retries() && !(k > 0 && woken(k)) {
      var (next, out) := Attempted(server, k, part, total, o.etag(v), opts.maxBytes);
      if Asks(part, total) {
        AttemptIsWhole(o, server, v, k, part, total, opts.maxBytes);
      } else {
        UnaskedIsDone(server, k, part, total, o.etag(v), opts.maxBytes);
      }
      if out == Retry {
        assert o.served(k) <= o.served(k + 1);
        AttemptKeepsVersion(o, server, v, k, part, total, opts.maxBytes);
        AttemptsAreWhole(opts, o, server, woken, v, next, total, k + 1);
        var rest := Attempts(opts, server, woken, next, total, o.etag(v), k + 1);
        if rest.result.Success? {
          EndedLater(o, server, part, next, total, k, rest);
        }
        hide EndedWhole;
      }
    }
  }

  lemma UnaskedIsDone(server: Server, k: nat, part: Bytes, total: int, etag: string, maxBytes: int)
    requires !Asks(part, total)
    ensures Attempted(server, k, part, total, etag, maxBytes) == (part, Done) && |part| == total > 0
  {
  }

  /** The version the file of a successful download is of: the one served to the last GET, or, when .part
      had its total before any, the one HEAD described. */
  function Source(o: Origin, v: nat, gets: nat): nat {
    if gets == 0 then v else o.served(gets - 1)
  }

  /** When a clean end is the version's end, a download that succeeds has the whole of the version last
      served, except when .part came to have its total without a clean end: then nothing more is asked, and
      the file is whole exactly when that version has no more than the total. */
  lemma SuccessIsWhole(opts: Options, o: Origin, size: int, v: nat, server: Server, woken: nat -> bool,
                       part: Bytes, dest: Option<Bytes>)
    requires o.Ok() && Honest(o, server) && EndsWhole(o, server) && v <= o.served(0) && part <= o.content(v)
    ensures var f := Downloaded(opts, HeadOk(size, o.etag(v)), server, woken, part, dest);
            var meta := Probed(opts, HeadOk(size, o.etag(v)));
            var content := o.content(Source(o, v, f.gets));
            f.result.Success? && f.trace != [] ==>
              && f.dest.Some? && f.dest.value <= content
              && (f.dest.value == content <==> f.gets == |f.trace| || |content| == meta.total)
              && (f.gets != |f.trace| ==> f.gets == |f.trace| - 1 && |f.dest.value| == meta.total > 0
                                          && (f.gets > 0 ==> Broke(server, f.gets - 1)))
  {
    hide Attempts, Honest, EndsWhole, Broke;
    var meta := Probed(opts, HeadOk(size, o.etag(v)));
    if meta.Known? {
      AttemptsAreWhole(opts, o, server, woken, v, Resumed(opts, meta.etag, part), meta.total, 0);
    }
  }

  /** Such a file: HEAD described two bytes, the version served has three, and its stream breaks after two. */
  lemma BrokenAtTotalIsNotWhole()
    ensures exists o: Origin, server: Server, opts: Options, woken: nat -> bool ::
              && o.Ok() && Honest(o, server) && EndsWhole(o, server)
              && var f := Downloaded(opts, HeadOk(2, o.etag(0)), server, woken, [], None);
                 f.result.Success? && f.dest.Some? && forall u: nat :: f.dest.value != o.content(u)
  {
    var o, opts, woken := Replaced(), Options(0, "", 1, 0, 0), (k: nat) => false;
    ReplacedIsOk();
    CutIsHonest();
    hide Honest, EndsWhole, Origin.Ok, Attempts, Replaced;
    TwoOfThree(opts, woken, o.etag(0));
    var f := Downloaded(opts, HeadOk(2, o.etag(0)), CUT_AT_TWO, woken, [], None);
    assert f.result.Success? && f.dest == Some([2, 2]);
  }

  /** Two bytes, replaced by three before the first GET. */
  function Replaced(): Origin {
    Origin((v: nat) => if v == 0 then [1, 1] else [2, 2, 2], (v: nat) => seq(v + 1, _ => 'v'), (k: nat) => 1)
  }

  const CUT_AT_TWO: Server := (k: nat, n: nat, tag: string) => Full([[2, 2]], Broken)

  lemma ReplacedIsOk()
    ensures Replaced().Ok() && forall u: nat :: Replaced().content(u) != [2, 2]
  {
    var o := Replaced();
    forall v: nat, w: nat | o.etag(v) == o.etag(w)
      ensures v == w
    {
      assert |o.etag(v)| == v + 1 && |o.etag(w)| == w + 1;
    }
    assert forall v: nat :: |o.etag(v)| == v + 1;
    assert [2, 2][0] == 2 && [1, 1][0] == 1 && |[2, 2, 2]| == 3;
  }

  lemma CutIsHonest()
    ensures Honest(Replaced(), CUT_AT_TWO) && EndsWhole(Replaced(), CUT_AT_TWO)
  {
    assert Concat([[2, 2]]) == [2, 2] by {
      assert [[2, 2]][1..] == [];
    }
    assert [2, 2] <= [2, 2, 2];
  }

  lemma TwoOfThree(opts: Options, woken: nat -> bool, etag: string)
    requires opts.maxBytes == 0 && !woken(1)
    ensures var c := Attempts(opts, CUT_AT_TWO, woken, [], 2, etag, 0);
            c.result == Success && c.part == [2, 2]
  {
    assert [] + [2, 2] == [2, 2] && [[2, 2]][1..] == [];
    assert Streamed([], [[2, 2]], Broken, 2, 0) == Streamed([2, 2], [], Broken, 2, 0) == ([2, 2], Retry);
    assert Attempted(CUT_AT_TWO, 0, [], 2, etag, 0) == ([2, 2], Retry);
    assert Attempted(CUT_AT_TWO, 1, [2, 2], 2, etag, 0) == ([2, 2], Done);
    hide Attempted, Streamed;
    assert Attempts(opts, CUT_AT_TWO, woken, [2, 2], 2, etag, 1) == Call([2, 2], Success, 0, [[2, 2]]);
  }

  // ---- Without an ETag ----

  lemma {:induction false} StreamExtends(part: Bytes, body: seq<Bytes>, end: End, total: int, maxBytes: int)
    ensures part <= Streamed(part, body, end, total, maxBytes).0
    decreases |body|
  {
    if body != [] {
      StreamExtends(part + body[0], body[1..], end, total, maxBytes);
    }
  }

  /** Whatever ETag is sent, if any: a range joined to .part leaves a start of the version it is of exactly
      when .part started that version, and without such a range .part stays a start of some version. */
  lemma JoinedRangeKeepsVersionExactly(o: Origin, server: Server, k: nat, part: Bytes, total: int, etag: string,
                                       maxBytes: int)
    requires Honest(o, server) && exists w: nat :: part <= o.content(w)
    ensures var kept, content := Kept(part, total), o.content(o.served(k));
            var r := server(k, |kept|, IfRange(kept, etag));
            var after := Attempted(server, k, part, total, etag, maxBytes).0;
            if Asks(part, total) && r.Partial? then after <= content <==> kept <= content
            else exists w: nat :: after <= o.content(w)
  {
    hide Streamed, Concat, IndexOf, Honest, Itoa, ParseInt;
    var w: nat :| part <= o.content(w);
    var kept, content := Kept(part, total), o.content(o.served(k));
    var tag := IfRange(kept, etag);
    var r := server(k, |kept|, tag);
    assert [] <= o.content(w) && kept <= o.content(w);
    HonestlyReplied(o, server, k, |kept|, tag);
    match r
    case Full(body, end) =>
      assert [] + Concat(body) == Concat(body);
      StreamStaysPrefix([], body, end, total, maxBytes, content);
    case Partial(range, body, end) =>
      RangeStartsThere(o, k, |kept|, tag, r);
      hide ContentRangeStart;
      StreamExtends(kept, body, end, total, maxBytes);
      if kept <= content {
        assert kept + content[|kept|..] == content;
        StreamStaysPrefix(kept, body, end, total, maxBytes, content);
      }
    case _ =>
  }

  /** The range of an honest 206 is never taken to start elsewhere. */
  lemma RangeStartsThere(o: Origin, k: nat, n: nat, tag: string, r: Response)
    requires r.Partial? && HonestReply(o, k, n, tag, r)
    ensures var start := ContentRangeStart(r.contentRange);
            start.Some? ==> start.value == n
  {
    hide Concat, ContentRangeStart, Itoa;
    NoRangeNoStart();
    if r.contentRange != "" {
      var tail :| r.contentRange == RANGE_PREFIX + Itoa(n) + "-" + tail;
      ContentRangeReadsBack(n, tail);
    }
  }

  /** Without an ETag even an honest server can leave a mixture: a range of the second version is joined
      to the first byte of the first. */
  lemma WithoutEtagVersionsMix()
    ensures exists o: Origin, server: Server, part: Bytes ::
              && Honest(o, server) && part <= o.content(0)
              && var (after, out) := Attempted(server, 0, part, 2, "", 0);
                 out == Done && forall v: nat :: !(after <= o.content(v))
  {
    var o := Origin((v: nat) => if v == 0 then [1, 1] else [2, 2], (v: nat) => Itoa(v), (k: nat) => 1);
    var server: Server := (k: nat, n: nat, ifRange: string) =>
      if n == 1 && ifRange == "" then Partial("", [[2]], Eof) else NotSatisfiable;
    forall k: nat, n: nat, ifRange: string
      ensures HonestReply(o, k, n, ifRange, server(k, n, ifRange))
    {
      assert o.content(o.served(k)) == [2, 2];
      assert Concat([[2]]) == [2] by {
        assert [[2]][1..] == [];
      }
    }
    var (after, out) := Attempted(server, 0, [1], 2, "", 0);
    assert Streamed([1], [[2]], Eof, 2, 0) == Streamed([1] + [2], [[2]][1..], Eof, 2, 0);
    assert [1] + [2] == [1, 2] && [[2]][1..] == [];
    assert after == [1, 2] && out == Done;
    forall v: nat
      ensures !(after <= o.content(v))
    {
      assert after[0] == 1 && after[1] == 2;
    }
    assert [1] <= o.content(0);
  }

  // ---- The download as the program runs it ----

  /** The two files of one download, and the GETs made for it. */
  class Downloader {
    const server: Server
    const woken: nat -> bool
    var part: Bytes
    var dest: Option<Bytes>
    var gets: nat
    ghost var trace: seq<Bytes>

    constructor (server: Server, woken: nat -> bool, part: Bytes, dest: Option<Bytes>)
      ensures this.server == server && this.woken == woken && this.part == part && this.dest == dest
      ensures gets == 0 && trace == []
    {
      this.server, this.woken, this.part, this.dest, this.gets, this.trace := server, woken, part, dest, 0, [];
    }

    method StreamInto(body: seq<Bytes>, end: End, append: bool, total: int, maxBytes: int) returns (o: Outcome)
      modifies this`part
      ensures (part, o) == Streamed(if append then old(part) else [], body, end, total, maxBytes)
    {
      if !append {
        part := [];
      }
      ghost var start := part;
      var written := |part|;
      var i := 0;
      while i < |body|
        invariant 0 <= i <= |body| && written == |part|
        invariant Streamed(part, body[i..], end, total, maxBytes) == Streamed(start, body, end, total, maxBytes)
      {
        assert body[i..][1..] == body[i + 1..];
        if |body[i]| > 0 {
          part := part + body[i];
          written := written + |body[i]|;
          if maxBytes > 0 && written > maxBytes {
            return Abort(MaxBytesExceeded);
          }
        } else {
          assert part + body[i] == part;
        }
        i := i + 1;
      }
      match end {
        case Broken => return Retry;
        case Unreadable => return Abort(ReadFailed);
        case Cancelled(timedOut) =>
          if timedOut {
            return Retry;
          }
          return Abort(ContextDone);
        case Eof =>
      }
      if total > 0 && written != total {
        return Retry;
      }
      return Done;
    }

    method Attempt(k: nat, total: int, etag: string, maxBytes: int) returns (o: Outcome)
      modifies this`part, this`gets
      ensures (part, o) == Attempted(server, k, old(part), total, etag, maxBytes)
      ensures gets == old(gets) + if Asks(old(part), total) then 1 else 0
    {
      hide Streamed, ContentRangeStart;
      if total > 0 && |part| > total {
        part := [];
      }
      if total > 0 && |part| == total {
        return Done;
      }
      gets := gets + 1;
      var r := server(k, |part|, if |part| > 0 then etag else "");
      match r {
        case NoResponse(retriable) =>
          o := if retriable then Retry else Abort(GetFailed);
        case Full(body, end) =>
          if |part| > 0 {
            part := [];
          }
          o := StreamInto(body, end, false, total, maxBytes);
        case Partial(contentRange, body, end) =>
          if contentRange != "" {
            var start := ParseContentRangeStart(contentRange);
            if start.Some? && start.value != |part| {
              part := [];
              return Retry;
            }
          } else {
            NoRangeNoStart();
          }
          o := StreamInto(body, end, true, total, maxBytes);
        case NotSatisfiable =>
          if total > 0 && |part| == total {
            return Done;
          }
          part := [];
          o := Retry;
        case OtherStatus(code) =>
          o := if RetriableStatus(code) then Retry else Abort(BadStatus(code));
      }
    }

    method RunAttempts(opts: Options, total: int, etag: string) returns (result: Result)
      requires gets == 0 && trace == []
      modifies this`part, this`gets, this`trace
      ensures Call(part, result, gets, trace) == Attempts(opts, server, woken, old(part), total, etag, 0)
    {
      hide Attempted, Asks, Attempts, After;
      ghost var call := Attempts(opts, server, woken, part, total, etag, 0);
      AfterNothing(call);
      var attempt := 0;
      while attempt <= opts.Retries()
        invariant 0 <= attempt <= opts.Retries() + 1
        invariant call == After(gets, trace, Attempts(opts, server, woken, part, total, etag, attempt))
      {
        AttemptsUnroll(opts, server, woken, part, total, etag, attempt, gets, trace);
        if attempt > 0 && woken(attempt) {
          return Failure(ContextDone);
        }
        var o := Attempt(attempt, total, etag, opts.maxBytes);
        trace := trace + [part];
        match o {
          case Done => return Success;
          case Abort(error) => return Failure(error);
          case Retry =>
        }
        attempt := attempt + 1;
      }
      AttemptsUnroll(opts, server, woken, part, total, etag, attempt, gets, trace);
      return Failure(TooManyRetries);
    }

    method Download(opts: Options, head: Head) returns (result: Result)
      requires gets == 0 && trace == []
      modifies this
      ensures Finished(part, dest, result, gets, trace) == Downloaded(opts, head, server, woken, old(part), old(dest))
    {
      hide Attempts;
      var meta := Probed(opts, head);
      if meta.Stop? {
        return Failure(meta.error);
      }
      if opts.etag != "" && meta.etag != "" && opts.etag != meta.etag {
        part := [];
      }
      var etag := opts.etag;
      if meta.etag != "" {
        etag := meta.etag;
      }
      if meta.total > 0 && dest.Some? && |dest.value| == meta.total {
        return Success;
      }
      result := RunAttempts(opts, meta.total, etag);
      if result.Failure? {
        return;
      }
      dest, part := Some(part), [];
    }
  }

  /** What is left of a call after some attempts, put behind them. */
  function After(gets: nat, trace: seq<Bytes>, rest: Call): Call {
    rest.(gets := gets + rest.gets, trace := trace + rest.trace)
  }

  lemma AfterNothing(rest: Call)
    ensures After(0, [], rest) == rest
  {
    assert [] + rest.trace == rest.trace;
  }

  /** One attempt more, and what then is left. */
  lemma AttemptsUnroll(opts: Options, server: Server, woken: nat -> bool, part: Bytes, total: int, etag: string, k: nat,
                       gets: nat, trace: seq<Bytes>)
    ensures var c := After(gets, trace, Attempts(opts, server, woken, part, total, etag, k));
            if k > opts.Retries() then c == Call(part, Failure(TooManyRetries), gets, trace)
            else if k > 0 && woken(k) then c == Call(part, Failure(ContextDone), gets, trace)
            else
              var (next, o) := Attempted(server, k, part, total, etag, opts.maxBytes);
              var asked := gets + if Asks(part, total) then 1 else 0;
              match o
              case Done => c == Call(next, Success, asked, trace + [next])
              case Abort(error) => c == Call(next, Failure(error), asked, trace + [next])
              case Retry => c == After(asked, trace + [next], Attempts(opts, server, woken, next, total, etag, k + 1))
  {
    hide Attempted, Asks;
    assert trace + [] == trace;
    if k <= opts.Retries() {
      var next := Attempted(server, k, part, total, etag, opts.maxBytes).0;
      var rest := Attempts(opts, server, woken, next, total, etag, k + 1);
      assert trace + ([next] + rest.trace) == trace + [next] + rest.trace;
    }
  }

  lemma NoRangeNoStart()
    ensures ContentRangeStart("") == None
  {
  }
}
