/** The client: requests, bodies read piece by piece, a sink written to. Each method is proved to
    do what `AssetReads` says of it, however the bodies are cut. */
module AssetClient {
  import opened Text
  import opened AssetFormat
  import opened BodyReader
  import opened Pieces
  import opened AssetFile
  import R = AssetReads

  datatype Answer = Answer(
    status: int, etag: Option<Text>, range: Option<R.ContentRange>, length: Option<nat>, encoded: bool, body: BodyReader)

  /** One opened read: the body stands at the first segment of the plan. */
  datatype Opened = Opened(decryptor: Decryptor, etag: Option<Text>, plan: Plan, body: BodyReader)

  /** The opened read, with what is left of its body. */
  ghost function Seen(r: R.Outcome<Opened>): R.Outcome<R.Position>
    reads if r.Done? then {r.value.body} else {}
  {
    match r
    case Done(o) => R.Done(R.Position(o.decryptor, o.etag, o.plan, o.body.Left()))
    case Changed => R.Changed
    case Failed(error) => R.Failed(error)
  }

  class Sink {
    var contents: Bytes

    constructor ()
      ensures contents == []
    {
      contents := [];
    }

    method Write(chunk: Bytes)
      modifies this
      ensures contents == old(contents) + chunk
    {
      contents := contents + chunk;
    }

    method Reset()
      modifies this
      ensures contents == []
    {
      contents := [];
    }
  }

  class AssetClient {
    const client: R.Client
    var requests: nat

    constructor (client: R.Client)
      ensures this.client == client && requests == 0
    {
      this.client := client;
      requests := 0;
    }

    method Send(request: R.Request) returns (r: R.Outcome<Answer>)
      modifies this
      ensures requests == old(requests) + 1
      ensures match R.Answered(client, old(requests), request)
        case Done(reply) =>
          && r.Done? && r.value.status == reply.status && r.value.etag == reply.etag && r.value.range == reply.range
          && r.value.length == reply.length && r.value.encoded == reply.encoded
          && fresh(r.value.body) && r.value.body.Valid() && r.value.body.Left() == Flatten(reply.chunks)
        case Changed => false
        case Failed(error) => r == R.Failed(error)
    {
      var reply := client.host(requests, request);
      requests := requests + 1;
      if reply.Refusal? {
        return R.Failed(R.Refused);
      }
      var body := new BodyReader(reply.chunks, reply.breaks);
      if reply.status !in {200, 206, 416} {
        body.Cancel();
        return R.Failed(R.Http);
      }
      return R.Done(Answer(reply.status, reply.etag, reply.range, reply.length, reply.encoded, body));
    }

    /** A ranged request, its answer checked. */
    method SendRanged(
      range: R.Range, ifRange: Option<Text>, total: Option<nat>, etag: Option<Text>, corsSafe: bool)
      returns (r: R.Outcome<(R.Accepted, BodyReader)>)
      modifies this
      ensures requests == old(requests) + 1
      ensures match R.Ranged(client, old(requests), range, ifRange, total, etag, corsSafe)
        case Done(part) =>
          && r.Done? && r.value.0 == part.accepted && fresh(r.value.1) && r.value.1.Valid() && r.value.1.Left() == part.left
        case Changed => r == R.Changed
        case Failed(error) => r == R.Failed(error)
    {
      var answer :- Send(R.Request(false, Some(range), ifRange));
      var accepted :- R.CheckRanged(answer.status, answer.etag, answer.range,
                                    R.Expected(range.from, range.to, total, etag, ifRange.Some?, corsSafe));
      return R.Done((accepted, answer.body));
    }

    method OpenAtStart(body: BodyReader, total: nat, etag: Option<Text>, window: Window) returns (r: R.Outcome<Opened>)
      requires body.Valid()
      modifies body
      ensures body.Valid() && (r.Done? ==> r.value.body == body)
      ensures Seen(r) == R.AtStart(old(body.Left()), total, etag, window)
    {
      var header := body.ReadExactly(Min(HEADER_LENGTH, total));
      if header.None? {
        return R.Failed(R.Network);
      }
      var plan := PlanWindow(total, window);
      var d := OpenDecryptor(header.value, total);
      if plan.None? || d.None? {
        return R.Failed(R.Corrupt);
      }
      return R.Done(Opened(d.value, etag, plan.value, body));
    }

    method OpenSegments(d: Decryptor, plan: Plan, etag: Option<Text>) returns (r: R.Outcome<Opened>)
      modifies this
      ensures r.Done? ==> fresh(r.value.body) && r.value.body.Valid()
      ensures R.Ran(Seen(r), requests) == R.Segments(client, old(requests), d, plan, etag)
    {
      var range := R.Range(CipherStart(plan.first), Some(SegmentEnd(plan.last, d.total) - 1));
      var ifRange := if !client.corsSafe && R.IsStrong(etag) then etag else None;
      var sent :- SendRanged(range, ifRange, Some(d.total), etag, client.corsSafe);
      return R.Done(Opened(d, etag, plan, sent.1));
    }

    method OpenConditional(window: Window, resume: Option<Text>) returns (r: R.Outcome<Opened>)
      modifies this
      ensures r.Done? ==> fresh(r.value.body) && r.value.body.Valid()
      ensures R.Ran(Seen(r), requests) == R.Conditional(client, old(requests), window, resume)
    {
      var ifRange := if R.IsStrong(resume) then resume else None;
      var sent :- SendRanged(R.Range(0, R.FirstTo(window)), ifRange, None, resume, false);
      var accepted, body := sent.0, sent.1;
      if accepted.total.None? {
        return R.Failed(R.Http);
      }
      var o :- OpenAtStart(body, accepted.total.value, accepted.etag, window);
      if SegmentOf(window.start) == 0 && o.plan.first == 0 {
        return R.Done(o);
      }
      r := OpenSegments(o.decryptor, o.plan, accepted.etag);
    }

    method OpenSafelisted(window: Window, total: nat, etag: Option<Text>) returns (r: R.Outcome<Opened>)
      modifies this
      ensures r.Done? ==> fresh(r.value.body) && r.value.body.Valid()
      ensures R.Ran(Seen(r), requests) == R.Safelisted(client, old(requests), window, total, etag)
    {
      var planned := PlanWindow(total, window);
      if planned.None? {
        return R.Failed(R.Corrupt);
      }
      var plan := planned.value;
      var to := if plan.first == 0 then SegmentEnd(plan.last, total) - 1 else HEADER_LENGTH - 1;
      var sent :- SendRanged(R.Range(0, Some(to)), None, Some(total), etag, true);
      var o :- OpenAtStart(sent.1, total, etag, window);
      if plan.first == 0 {
        return R.Done(o);
      }
      r := OpenSegments(o.decryptor, plan, etag);
    }

    /** One plain request; the segments before the window are read and dropped. */
    method OpenWhole(window: Window, total: nat, etag: Option<Text>) returns (r: R.Outcome<Opened>)
      modifies this
      ensures r.Done? ==> fresh(r.value.body) && r.value.body.Valid()
      ensures R.Ran(Seen(r), requests) == R.Whole(client, old(requests), window, total, etag)
    {
      var answer :- Send(R.Request(false, None, None));
      if answer.status != 200 {
        return R.Failed(R.Http);
      }
      if etag.Some? && answer.etag != etag {
        return R.Changed;
      }
      if PlanWindow(total, window).None? {
        return R.Failed(R.Corrupt);
      }
      var o :- OpenAtStart(answer.body, total, etag, window);
      var skipped := Skip(o.body, CipherStart(o.plan.first));
      return if skipped then R.Done(o) else R.Failed(R.Network);
    }

    /** Drops what lies between the header and the target, a segment's size at a time. */
    method Skip(body: BodyReader, target: nat) returns (ok: bool)
      requires body.Valid() && target >= HEADER_LENGTH
      modifies body
      ensures body.Valid() && ok == (target - HEADER_LENGTH <= |old(body.Left())|)
      ensures ok ==> body.Left() == old(body.Left())[target - HEADER_LENGTH..]
    {
      ghost var left, gone: nat := body.Left(), 0;
      var at := HEADER_LENGTH;
      while at < target
        invariant HEADER_LENGTH <= at <= target && body.Valid() && gone == at - HEADER_LENGTH
        invariant gone <= |left| && body.Left() == left[gone..]
      {
        var step := Min(SEGMENT_SIZE, target - at);
        var dropped := body.ReadExactly(step);
        if dropped.None? {
          return false;
        }
        DropAgain(left, gone, step);
        at, gone := at + step, gone + step;
      }
      return true;
    }

    method OpenEncrypted(window: Window, resume: Option<Text>) returns (r: R.Outcome<Opened>)
      modifies this
      ensures r.Done? ==> fresh(r.value.body) && r.value.body.Valid()
      ensures R.Ran(Seen(r), requests) == R.OpenEncrypted(client, old(requests), window, resume)
    {
      if !client.corsSafe {
        r := OpenConditional(window, resume);
        return;
      }
      var head :- Send(R.Request(true, None, None));
      if head.status != 200 || head.encoded || head.length.None? {
        return R.Failed(R.Http);
      }
      if resume.Some? && head.etag != resume {
        return R.Changed;
      }
      r := OpenSafelisted(window, head.length.value, head.etag);
      if r.Failed? && r.error.Refused? {
        r := OpenWhole(window, head.length.value, head.etag);
      }
    }

    /** Reads one segment and verifies it. */
    method OpenNext(o: Opened, i: nat) returns (r: R.Outcome<Bytes>)
      requires o.body.Valid()
      modifies o.body
      ensures o.body.Valid() && !r.Changed?
      ensures var length, left := R.ExtentLength(o.decryptor, i), old(o.body.Left());
        if !(0 <= length <= |left|) then r == R.Failed(R.Network)
        else
          match OpenSegment(client.file, o.decryptor, i, left[..length])
          case None => r == R.Failed(R.Corrupt)
          case Some(plain) => r == R.Done(plain) && o.body.Left() == left[length..]
    {
      var length := R.ExtentLength(o.decryptor, i);
      if length < 0 {
        return R.Failed(R.Network);
      }
      var segment := o.body.ReadExactly(length);
      if segment.None? {
        return R.Failed(R.Network);
      }
      var plain := OpenSegment(client.file, o.decryptor, i, segment.value);
      return if plain.None? then R.Failed(R.Corrupt) else R.Done(plain.value);
    }

    /** Verifies the opened window segment by segment and writes each part to the sink. */
    method EmitSegments(o: Opened, sink: Sink) returns (error: Option<R.Error>)
      requires o.body.Valid()
      modifies o.body, sink
      ensures o.body.Valid()
      ensures var emitted := R.Emit(client, R.Position(o.decryptor, o.etag, o.plan, old(o.body.Left())));
        sink.contents == old(sink.contents) + emitted.bytes && error == emitted.error
    {
      ghost var p := R.Position(o.decryptor, o.etag, o.plan, o.body.Left());
      ghost var all := R.Emit(client, p);
      var i := o.plan.first;
      while i <= o.plan.last
        invariant o.body.Valid()
        invariant var later := R.EmitSegments(client, p, i, o.body.Left());
          old(sink.contents) + all.bytes == sink.contents + later.bytes && all.error == later.error
        decreases o.plan.last + 1 - i
      {
        R.EmitsStep(client, p, i, o.body.Left());
        var r := OpenNext(o, i);
        if r.Failed? {
          o.body.Cancel();
          return Some(r.error);
        }
        var part := PartOf(r.value, o.plan, i);
        Regroup(sink.contents, part, R.EmitSegments(client, p, i + 1, o.body.Left()).bytes);
        sink.Write(part);
        i := i + 1;
      }
      o.body.Cancel();
      return None;
    }

    method AttemptRead(window: Window) returns (r: R.Outcome<Bytes>)
      modifies this
      ensures R.Ran(r, requests) == R.ReadAttempt(client, old(requests), window)
    {
      var o :- OpenEncrypted(window, None);
      var chunks := new Sink();
      ghost var p := R.Position(o.decryptor, o.etag, o.plan, o.body.Left());
      var error := EmitSegments(o, chunks);
      assert [] + R.Emit(client, p).bytes == R.Emit(client, p).bytes;
      return if error.Some? then R.Failed(error.value) else R.Done(chunks.contents);
    }

    method ReadEncryptedRange(window: Window) returns (r: R.Outcome<Bytes>)
      modifies this
      ensures R.Ran(r, requests) == R.ReadRange(client, old(requests), window, 0)
    {
      var restart: nat := 0;
      while true
        invariant restart <= R.MAX_RESTARTS
        invariant R.ReadRange(client, requests, window, restart) == R.ReadRange(client, old(requests), window, 0)
        decreases R.MAX_RESTARTS - restart
      {
        r := AttemptRead(window);
        if !r.Changed? {
          return;
        }
        if restart >= R.MAX_RESTARTS {
          return R.Failed(R.Http);
        }
        restart := restart + 1;
      }
    }

    method AttemptDownload(sink: Sink, written: nat, resume: Option<Text>) returns (r: R.Outcome<nat>)
      modifies this, sink
      ensures R.Attempt(r, sink.contents, requests)
        == R.DownloadAttempt(client, old(requests), old(sink.contents), written, resume)
      ensures r.Changed? ==> sink.contents == old(sink.contents)
    {
      var o :- OpenEncrypted(Window(written, None), resume);
      var length := o.decryptor.plaintextLength;
      var error := EmitSegments(o, sink);
      if error.Some? {
        return R.Failed(error.value);
      }
      return if written > length then R.Failed(R.PastEnd) else R.Done(length);
    }

    /** Resumes at the sink's length, or starts from nothing. */
    method DownloadEncrypted(sink: Sink, resumeEtag: Option<Text>) returns (r: R.Outcome<nat>, attempts: nat)
      modifies this, sink
      ensures R.Download(r, sink.contents, attempts)
        == R.DownloadFrom(client, old(requests), old(sink.contents), |old(sink.contents)|, resumeEtag, 0)
    {
      hide R.DownloadAttempt;
      var written: nat, resume, restart: nat := |sink.contents|, resumeEtag, 0;
      ghost var whole := R.DownloadFrom(client, requests, sink.contents, written, resume, 0);
      while true
        invariant restart <= R.MAX_RESTARTS && written == |sink.contents|
        invariant R.DownloadFrom(client, requests, sink.contents, written, resume, restart) == whole
        decreases R.MAX_RESTARTS - restart
      {
        attempts := restart + 1;
        ghost var before := R.Before(requests, sink.contents, written, resume);
        r := AttemptDownload(sink, written, resume);
        ghost var after := R.Attempt(r, sink.contents, requests);
        R.OneDownload(client, before, restart, after);
        if !r.Changed? {
          return;
        }
        if restart >= R.MAX_RESTARTS {
          return R.Failed(R.Http), attempts;
        }
        if written > 0 {
          sink.Reset();
        }
        written, resume, restart := 0, None, restart + 1;
      }
    }
  }

  lemma DropAgain(s: Bytes, a: nat, b: nat)
    requires a + b <= |s|
    ensures s[a..][b..] == s[a + b..]
  {
  }

  lemma Regroup(a: Bytes, b: Bytes, c: Bytes)
    ensures a + (b + c) == a + b + c
  {
  }
}
