/** A chain of trace segments sharing one trace id: segments are buffered and
    sent to the tracing service in batches of `backlog`, a started segment is
    remembered until it is ended, and child chains are forked from a parent.
    Segment ids and trace-id digests, which come from HMACs over random keys
    and UUIDs, and the clock are parameters. */
module XrayChain {
  import opened PyValue

  /** The fields of a segment document. */
  datatype Field =
    | Name | Id | TraceIdField | StartTime | EndTime | InProgress
    | ParentId | Type | Metadata | Annotations | Http

  /** The JSON key each field is written under. */
  function FieldKey(f: Field): string {
    match f
    case Name => "name"
    case Id => "id"
    case TraceIdField => "trace_id"
    case StartTime => "start_time"
    case EndTime => "end_time"
    case InProgress => "in_progress"
    case ParentId => "parent_id"
    case Type => "type"
    case Metadata => "metadata"
    case Annotations => "annotations"
    case Http => "http"
  }

  /** A segment document before serialisation (the serialised form is a
      function of it, so the document stands for the buffered string). */
  type Segment = map<Field, Value>

  /** Python truthiness, as `segment_id if segment_id else ...` tests it. */
  predicate Truthy(v: Value) {
    match v
    case VNone => false
    case VBool(b) => b
    case VInt(i) => i != 0
    case VFloat(x) => x != 0.0
    case VStr(s) => s != []
    case VList(xs) => xs != []
    case VDict(m) => m != map[]
  }

  /** The id a logged segment gets: the one given when truthy, else a fresh one. */
  function SegmentIdFor(given: Value, freshId: string): (id: Value)
    ensures Truthy(given) ==> id == given
    ensures !Truthy(given) ==> id == VStr(freshId)
  {
    if Truthy(given) then given else VStr(freshId)
  }

  /** What one `log` call records: its arguments, the chosen id and the chain's context. */
  datatype SegmentInfo = SegmentInfo(
    name: Value, id: Value, traceId: string, start: Value, end: Value,
    parentId: Value, subsegment: bool, metadata: Value, annotations: Value, http: Value)

  const AllFields: set<Field> :=
    {Name, Id, TraceIdField, StartTime, EndTime, InProgress, ParentId, Type, Metadata, Annotations, Http}

  /** Whether `log` writes the field. */
  predicate Written(f: Field, s: SegmentInfo) {
    match f
    case EndTime => s.end != VNone
    case InProgress => s.end == VNone
    case ParentId => s.parentId != VNone
    case Type => s.subsegment
    case Metadata => s.metadata != VNone
    case Annotations => s.annotations != VNone
    case Http => s.http != VNone
    case _ => true
  }

  /** The value `log` writes for the field. */
  function FieldValue(f: Field, s: SegmentInfo): Value {
    match f
    case Name => s.name
    case Id => s.id
    case TraceIdField => VStr(s.traceId)
    case StartTime => s.start
    case EndTime => s.end
    case InProgress => VBool(true)
    case ParentId => s.parentId
    case Type => VStr("subsegment")
    case Metadata => s.metadata
    case Annotations => s.annotations
    case Http => s.http
  }

  /** The segment document `log` serialises. Name, id, trace id and start
      time are always present; `end_time` exactly when an end is given and
      `in_progress: true` exactly when not; `parent_id` exactly when the
      chain has a parent; `type: "subsegment"` exactly for a subsegment
      chain; metadata, annotations and HTTP details exactly when given. */
  function BuildSegment(s: SegmentInfo): (seg: Segment)
    ensures Name in seg && seg[Name] == s.name && Id in seg && seg[Id] == s.id
    ensures TraceIdField in seg && seg[TraceIdField] == VStr(s.traceId)
    ensures StartTime in seg && seg[StartTime] == s.start
    ensures (EndTime in seg <==> s.end != VNone) && (InProgress in seg <==> s.end == VNone)
    ensures EndTime in seg ==> seg[EndTime] == s.end
    ensures InProgress in seg ==> seg[InProgress] == VBool(true)
    ensures (ParentId in seg <==> s.parentId != VNone) && (ParentId in seg ==> seg[ParentId] == s.parentId)
    ensures (Type in seg <==> s.subsegment) && (Type in seg ==> seg[Type] == VStr("subsegment"))
    ensures (Metadata in seg <==> s.metadata != VNone) && (Metadata in seg ==> seg[Metadata] == s.metadata)
    ensures (Annotations in seg <==> s.annotations != VNone) && (Annotations in seg ==> seg[Annotations] == s.annotations)
    ensures (Http in seg <==> s.http != VNone) && (Http in seg ==> seg[Http] == s.http)
  {
    map f | f in AllFields && Written(f, s) :: FieldValue(f, s)
  }

  // ---------------------------------------------------------------------------
  // The segment buffer

  /** The buffered segments and the batches handed to the tracing service. */
  datatype Buffer = Buffer(pending: seq<Segment>, sent: seq<seq<Segment>>)

  /** `flush`: a non-empty buffer is emptied, and its segments sent as one
      batch when `sends` (a service client exists and the chain is not a mock). */
  function Flushed(b: Buffer, sends: bool): (r: Buffer)
    ensures r.pending == []
    ensures r.sent == if sends && b.pending != [] then b.sent + [b.pending] else b.sent
  {
    if b.pending == [] then b
    else Buffer([], if sends then b.sent + [b.pending] else b.sent)
  }

  /** Appending one segment, then flushing once the buffer holds `backlog` or more. */
  function Pushed(b: Buffer, seg: Segment, backlog: int, sends: bool): Buffer {
    var appended := Buffer(b.pending + [seg], b.sent);
    if |appended.pending| >= backlog then Flushed(appended, sends) else appended
  }

  /** The buffer never holds `backlog` segments after a `log`. */
  predicate Bounded(b: Buffer, backlog: int) {
    |b.pending| == 0 || |b.pending| < backlog
  }

  /** Every segment ever sent, in order. */
  function AllSent(batches: seq<seq<Segment>>): seq<Segment> {
    if batches == [] then [] else AllSent(batches[..|batches| - 1]) + batches[|batches| - 1]
  }

  /** Whatever the state before, a push leaves the buffer below the backlog. */
  lemma PushBounded(b: Buffer, seg: Segment, backlog: int, sends: bool)
    ensures Bounded(Pushed(b, seg, backlog, sends), backlog)
  {
  }

  /** With a client, no segment is lost, duplicated or reordered: what has
      been sent followed by what is pending grows by exactly the new segment. */
  lemma PushConserves(b: Buffer, seg: Segment, backlog: int)
    ensures var r := Pushed(b, seg, backlog, true);
            AllSent(r.sent) + r.pending == AllSent(b.sent) + b.pending + [seg]
  {
    var r := Pushed(b, seg, backlog, true);
    if |b.pending| + 1 >= backlog {
      assert r.sent == b.sent + [b.pending + [seg]];
      assert r.sent[..|r.sent| - 1] == b.sent;
    }
  }

  /** Flushing with a client moves the pending segments to the sent ones. */
  lemma FlushConserves(b: Buffer)
    ensures var r := Flushed(b, true);
            AllSent(r.sent) + r.pending == AllSent(b.sent) + b.pending
  {
    var r := Flushed(b, true);
    if b.pending != [] {
      assert r.sent[..|r.sent| - 1] == b.sent;
    }
  }

  // ---------------------------------------------------------------------------
  // Trace ids

  function HexDigit(d: nat): char
    requires d < 16
  {
    if d < 10 then ('0' as int + d) as char else ('a' as int + d - 10) as char
  }

  /** Lower-case hexadecimal digits of `n`, most significant first. */
  function HexDigits(n: nat): (s: string)
    ensures s != []
  {
    if n < 16 then [HexDigit(n)] else HexDigits(n / 16) + [HexDigit(n % 16)]
  }

  /** `hex(n)[2:]`: the digits for a non-negative `n`, and for a negative one
      the text after `-0`. */
  function HexAfterPrefix(n: int): string {
    if n >= 0 then HexDigits(n) else "x" + HexDigits(-n)
  }

  /** `"1-%s-%s" % (hex(int(origin_time))[2:], digest[:24])`. */
  function TraceIdFor(originTime: real, digest: string): string {
    var d := if |digest| <= 24 then digest else digest[..24];
    "1-" + HexAfterPrefix(Truncate(originTime)) + "-" + d
  }

  // ---------------------------------------------------------------------------
  // The chain

  /** What `log_start` remembers about a segment until `log_end`. */
  datatype Started = Started(start: Value, name: Value)

  class Chain {
    const mock: bool
    const backlog: int
    const traceId: string
    const parentId: Value
    const subsegment: bool
    /** Whether the class-level service client exists (it does not under `MOCK_XRAY`). */
    const hasClient: bool
    var segments: seq<Segment>
    var sent: seq<seq<Segment>>
    var lastSegmentId: Value
    var inProgress: map<string, Started>

    /** Segments reach the service only through a client, and never from a mock chain. */
    predicate Sends()
      reads this
    {
      hasClient && !mock
    }

    function Buf(): Buffer
      reads this
    {
      Buffer(segments, sent)
    }

    /** `Chain(backlog, parent_id, subsegment, trace_id, mock)`; without a
        trace id one is made from the clock and an HMAC digest. */
    constructor (backlog: int, parentId: Value, subsegment: bool, traceId: Option<string>, mock: bool,
                 hasClient: bool, now: real, digest: string)
      ensures this.backlog == backlog && this.parentId == parentId && this.subsegment == subsegment
      ensures this.mock == mock && this.hasClient == hasClient
      ensures this.traceId == if traceId.Some? then traceId.value else TraceIdFor(now, digest)
      ensures segments == [] && sent == [] && lastSegmentId == VNone && inProgress == map[]
      ensures Bounded(Buf(), backlog)
    {
      this.mock := mock;
      this.backlog := backlog;
      this.traceId := if traceId.Some? then traceId.value else TraceIdFor(now, digest);
      this.parentId := parentId;
      this.subsegment := subsegment;
      this.hasClient := hasClient;
      segments := [];
      sent := [];
      lastSegmentId := VNone;
      inProgress := map[];
    }

    /** Empties the buffer and returns how many segments it held. */
    method Flush() returns (n: nat)
      modifies this`segments, this`sent
      ensures n == |old(segments)|
      ensures Buf() == Flushed(old(Buf()), Sends())
    {
      if |segments| == 0 {
        return 0;
      }
      n := |segments|;
      if hasClient && !mock {
        sent := sent + [segments];
      }
      segments := [];
    }

    /** Logs one segment and returns its id; `ValueError`, with nothing
        changed, when `name` is None. */
    method Log(start: Value, end: Value, name: Value, metadata: Value, annotations: Value, http: Value,
               segmentId: Value, freshId: string) returns (r: Result<Value>)
      modifies this`segments, this`sent, this`lastSegmentId
      ensures name == VNone ==> r == Err(ValueError) && unchanged(this)
      ensures name != VNone ==>
        var id := SegmentIdFor(segmentId, freshId);
        && r == Ok(id)
        && lastSegmentId == id
        && Buf() == Pushed(old(Buf()), BuildSegment(SegmentInfo(name, id, traceId, start, end, parentId,
                                                                subsegment, metadata, annotations, http)), backlog, Sends())
      ensures name != VNone ==> Bounded(Buf(), backlog)
    {
      if name == VNone {
        return Err(ValueError);
      }
      var id := SegmentIdFor(segmentId, freshId);
      var segment := BuildSegment(SegmentInfo(name, id, traceId, start, end, parentId, subsegment, metadata, annotations, http));
      lastSegmentId := id;
      segments := segments + [segment];
      if |segments| >= backlog {
        var _ := Flush();
      }
      PushBounded(old(Buf()), segment, backlog, Sends());
      r := Ok(id);
    }

    /** Logs an in-progress segment started `now` and remembers it under its fresh id. */
    method LogStart(name: Value, now: real, freshId: string) returns (r: Result<Value>)
      modifies this`segments, this`sent, this`lastSegmentId, this`inProgress
      ensures name == VNone ==> r == Err(ValueError) && unchanged(this)
      ensures name != VNone ==>
        && r == Ok(VStr(freshId))
        && inProgress == old(inProgress)[freshId := Started(VFloat(now), name)]
        && lastSegmentId == VStr(freshId)
        && Buf() == Pushed(old(Buf()), BuildSegment(SegmentInfo(name, VStr(freshId), traceId, VFloat(now), VNone,
                                                                parentId, subsegment, VNone, VNone, VNone)), backlog, Sends())
    {
      r := Log(VFloat(now), VNone, name, VNone, VNone, VNone, VNone, freshId);
      if r.Ok? {
        inProgress := inProgress[freshId := Started(VFloat(now), name)];
      }
    }

    /** Ends a started segment: forgets it and logs it as completed `now`,
        with its id and start time. `KeyError` for an id not in progress,
        `TypeError` for a list or dict id. */
    method LogEnd(segmentId: Value, metadata: Value, annotations: Value, http: Value, now: real, freshId: string)
      returns (r: Result<Value>)
      modifies this`segments, this`sent, this`lastSegmentId, this`inProgress
      ensures segmentId.VList? || segmentId.VDict? ==> r == Err(TypeError) && unchanged(this)
      ensures !segmentId.VList? && !segmentId.VDict? && !(segmentId.VStr? && segmentId.s in old(inProgress)) ==>
                r == Err(KeyError) && unchanged(this)
      ensures segmentId.VStr? && segmentId.s in old(inProgress) ==>
        var entry := old(inProgress)[segmentId.s];
        var id := SegmentIdFor(segmentId, freshId);
        && inProgress == old(inProgress) - {segmentId.s}
        && (entry.name == VNone ==> r == Err(ValueError) && Buf() == old(Buf()) && lastSegmentId == old(lastSegmentId))
        && (entry.name != VNone ==>
              && r == Ok(id)
              && lastSegmentId == id
              && Buf() == Pushed(old(Buf()), BuildSegment(SegmentInfo(entry.name, id, traceId, entry.start, VFloat(now),
                                                                      parentId, subsegment, metadata, annotations, http)),
                                 backlog, Sends()))
    {
      if segmentId.VList? || segmentId.VDict? {
        return Err(TypeError);
      }
      if !(segmentId.VStr? && segmentId.s in inProgress) {
        return Err(KeyError);
      }
      var entry := inProgress[segmentId.s];
      inProgress := inProgress - {segmentId.s};
      r := Log(entry.start, VFloat(now), entry.name, metadata, annotations, http, segmentId, freshId);
    }

    /** `log_start` followed directly by `log_end`, as `trace_associated`
        brackets a call that logs nothing on this chain: an in-progress
        segment and then a completed one, both under the fresh id and with
        the same start time, and nothing left in progress. */
    method StartThenEnd(name: Value, started: real, ended: real, freshId: string, unusedId: string)
      returns (r: Result<Value>)
      requires freshId !in inProgress && freshId != ""
      modifies this`segments, this`sent, this`lastSegmentId, this`inProgress
      ensures name == VNone ==> r == Err(ValueError) && unchanged(this)
      ensures name != VNone ==>
        var info := SegmentInfo(name, VStr(freshId), traceId, VFloat(started), VNone, parentId, subsegment, VNone, VNone, VNone);
        && r == Ok(VStr(freshId))
        && inProgress == old(inProgress)
        && lastSegmentId == VStr(freshId)
        && Buf() == Pushed(Pushed(old(Buf()), BuildSegment(info), backlog, Sends()),
                           BuildSegment(info.(end := VFloat(ended))), backlog, Sends())
    {
      r := LogStart(name, started, freshId);
      if r.Err? {
        return;
      }
      r := LogEnd(VStr(freshId), VNone, VNone, VNone, ended, unusedId);
      assert old(inProgress)[freshId := Started(VFloat(started), name)] - {freshId} == old(inProgress);
    }

    /** A child chain on the same trace: `RuntimeError` for a subsegment fork
        from a chain that never logged; the parent defaults to the last
        segment logged. */
    method Fork(subsegment: bool, parentId: Value) returns (r: Result<Chain>)
      ensures r.Err? <==> subsegment && lastSegmentId == VNone
      ensures r.Err? ==> r.exc == RuntimeError
      ensures r.Ok? ==>
        var c := r.value;
        && fresh(c)
        && c.traceId == traceId && c.backlog == backlog && c.mock == mock && c.hasClient == hasClient
        && c.subsegment == subsegment
        && c.parentId == (if parentId == VNone then lastSegmentId else parentId)
        && c.segments == [] && c.sent == [] && c.lastSegmentId == VNone && c.inProgress == map[]
    {
      if subsegment && lastSegmentId == VNone {
        return Err(RuntimeError);
      }
      var parent := if parentId == VNone then lastSegmentId else parentId;
      var c := new Chain(backlog, parent, subsegment, Some(traceId), mock, hasClient, 0.0, "");
      r := Ok(c);
    }

    /** `fork_subsegment`: a subsegment child, `RuntimeError` before any log. */
    method ForkSubsegment(parentId: Value) returns (r: Result<Chain>)
      ensures r.Err? <==> lastSegmentId == VNone
      ensures r.Err? ==> r.exc == RuntimeError
      ensures r.Ok? ==>
        var c := r.value;
        && fresh(c)
        && c.traceId == traceId && c.backlog == backlog && c.mock == mock && c.hasClient == hasClient
        && c.subsegment
        && c.parentId == (if parentId == VNone then lastSegmentId else parentId)
        && c.segments == [] && c.sent == [] && c.lastSegmentId == VNone && c.inProgress == map[]
    {
      r := Fork(true, parentId);
    }

    /** `fork_root`: a root child, which never fails. */
    method ForkRoot(parentId: Value) returns (r: Result<Chain>)
      ensures r.Ok?
      ensures var c := r.value;
        && fresh(c)
        && c.traceId == traceId && c.backlog == backlog && c.mock == mock && c.hasClient == hasClient
        && !c.subsegment
        && c.parentId == (if parentId == VNone then lastSegmentId else parentId)
        && c.segments == [] && c.sent == [] && c.lastSegmentId == VNone && c.inProgress == map[]
    {
      r := Fork(false, parentId);
    }
  }
}
