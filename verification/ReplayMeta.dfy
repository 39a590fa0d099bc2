/**
 The route bundle of a model replay: the TopK tables of all ranks and calls,
 deduplicated by digest into one blob of bytes, and the table that expands it
 again. The digest is an arbitrary function; the encoder compares contents when
 digests meet, so nothing below depends on its quality.
 */
module ReplayMeta {
  import opened Sums
  import opened RouteCounts
  import opened Wrappers

  datatype Shape = Shape(tokens: nat, topk: nat, world: nat, experts: nat, perRank: nat, forwardCalls: nat)
  {
    predicate Valid()
    {
      tokens > 0 && topk > 0 && world > 0 && experts > 0 && forwardCalls > 0
    }

    /** Values, and bytes, of one TopK table. */
    function Length(): nat
    {
      tokens * topk
    }
  }

  type Digest = string

  /** The digests of a table stored as 32-bit integers and of its bytes. */
  datatype Hash = Hash(ints: seq<int> -> Digest, bytes: seq<int> -> Digest)

  /**
   A value where a number is expected: a plain integer; something else that converts
   to one, such as a float, a boolean or a digit string; or something that does not.
   */
  datatype Number = Plain(n: int) | Converts(n: int) | NotANumber
  {
    /** Python's `int(value)` succeeds. */
    predicate Int()
    {
      !NotANumber?
    }
  }

  /** A list of numbers, or another iterable, such as a string of digits, whose items convert. */
  datatype Counts = CountList(items: seq<Number>) | CountIterable(values: seq<int>) | NoCounts

  /** Tensor descriptors: a JSON object, here by its text, or anything else. */
  datatype Descriptors = Object(text: string) | NotAnObject

  /** One captured call: its TopK values with their digest, and the plan metadata. */
  datatype Record = Record(
    call: Number, topk: seq<int>, topkDigest: Digest, sourceCall: Option<Number>, tokensPerExpert: Counts,
    remoteStats: seq<Number>, expertsToCopy: seq<seq<Number>>, payloadSeed: Option<Number>,
    descriptors: Option<Descriptors>)

  datatype Route = Route(routeId: int, offset: int, length: int, digest: Digest, payloadDigest: Digest)

  datatype CompactCall = CompactCall(
    call: int, sourceCall: int, routeId: int, tokensPerExpert: Counts, remoteStats: seq<Number>,
    expertsToCopy: seq<seq<Number>>, payloadSeed: int, descriptors: Descriptors)

  datatype Bundle = Bundle(unique: seq<Route>, rankCalls: seq<seq<CompactCall>>, blob: seq<int>)

  datatype MetaError = TooManyExperts | InvalidReplay | InvalidTopK | Collision | InvalidNumber

  // What the encoder accepts

  predicate DistinctRows(topk: seq<int>, shape: Shape)
    requires |topk| == shape.Length()
  {
    forall t :: 0 <= t < shape.tokens ==> BlockFits(t, shape.topk, |topk|) && Distinct(Block(topk, t, shape.topk))
  }

  /** Converting every count gives this histogram. */
  predicate ConvertTo(c: Counts, histogram: seq<int>)
  {
    match c
    case CountList(items) =>
      |items| == |histogram| && forall e :: 0 <= e < |items| ==> items[e].Int() && items[e].n == histogram[e]
    case CountIterable(values) => values == histogram
    case NoCounts => false
  }

  /** The loader compares the list of plain integers itself. */
  predicate AreExactly(c: Counts, histogram: seq<int>)
  {
    && c.CountList? && |c.items| == |histogram|
    && forall e :: 0 <= e < |c.items| ==> c.items[e] == Plain(histogram[e])
  }

  predicate ValidStats(stats: seq<Number>)
  {
    |stats| == 2 && forall i :: 0 <= i < 2 ==> stats[i].Plain? && stats[i].n >= 0
  }

  predicate ValidRecord(h: Hash, shape: Shape, r: Record, call: int)
  {
    && r.call.Int() && r.call.n == call && |r.topk| == shape.Length() && h.ints(r.topk) == r.topkDigest
    && ValidRoutes(r.topk, shape.experts) && DistinctRows(r.topk, shape)
    && ConvertTo(r.tokensPerExpert, Histogram(r.topk, shape.experts))
    && ValidStats(r.remoteStats)
    && |r.expertsToCopy| == shape.world
    && (forall i :: 0 <= i < |r.expertsToCopy| ==> |r.expertsToCopy[i]| == shape.perRank)
  }

  predicate ValidReplay(h: Hash, shape: Shape, ranks: seq<seq<Record>>)
  {
    && |ranks| == shape.world
    && (forall r :: 0 <= r < |ranks| ==> |ranks[r]| == shape.forwardCalls)
    && (forall r, c :: 0 <= r < |ranks| && 0 <= c < |ranks[r]| ==> ValidRecord(h, shape, ranks[r][c], c))
  }

  // Deduplication

  /** What the encoder has collected: unique tables, their bytes, and two dictionaries by digest. */
  datatype Encoder = Encoder(
    byDigest: map<Digest, nat>, raw: map<Digest, seq<int>>, unique: seq<Route>, blob: seq<int>)

  /** The bytes of unique route `id`. */
  function Slice(blob: seq<int>, id: nat, length: nat): seq<int>
    requires BlockFits(id, length, |blob|)
  {
    blob[id * length..id * length + length]
  }

  ghost predicate RouteKept(h: Hash, e: Encoder, length: nat, id: nat)
    requires id < |e.unique|
  {
    && BlockFits(id, length, |e.blob|)
    && var table := Slice(e.blob, id, length);
      && e.unique[id] == Route(id, id * length, length, h.ints(table), h.bytes(table))
      && e.unique[id].digest in e.byDigest && e.byDigest[e.unique[id].digest] == id
      && e.unique[id].digest in e.raw && e.raw[e.unique[id].digest] == table
  }

  ghost predicate Inv(h: Hash, e: Encoder, length: nat)
  {
    && |e.blob| == |e.unique| * length && e.byDigest.Keys == e.raw.Keys
    && (forall id :: 0 <= id < |e.unique| ==> RouteKept(h, e, length, id))
    && (forall d :: d in e.byDigest ==> e.byDigest[d] < |e.unique| && e.unique[e.byDigest[d]].digest == d)
  }

  /** Find the route of a table, or add it behind the others. */
  function AddRoute(h: Hash, e: Encoder, topk: seq<int>): Result<(Encoder, nat), MetaError>
  {
    var d := h.ints(topk);
    if d !in e.byDigest then
      var id := |e.unique|;
      var route := Route(id, |e.blob|, |topk|, d, h.bytes(topk));
      Ok((Encoder(e.byDigest[d := id], e.raw[d := topk], e.unique + [route], e.blob + topk), id))
    else if d !in e.raw || e.raw[d] != topk then Err(Collision)
    else Ok((e, e.byDigest[d]))
  }

  /** Nothing already collected changes. */
  ghost predicate Extends(e: Encoder, e': Encoder)
  {
    e.unique <= e'.unique && e.blob <= e'.blob
  }

  /** Route `id` is the one route of table `topk`. */
  ghost predicate RouteOf(h: Hash, e: Encoder, length: nat, id: int, topk: seq<int>)
  {
    && 0 <= id < |e.unique| && BlockFits(id, length, |e.blob|) && Slice(e.blob, id, length) == topk
    && e.unique[id].digest == h.ints(topk)
  }

  lemma {:induction false} SliceStays(e: Encoder, e': Encoder, length: nat, id: nat)
    requires Extends(e, e') && BlockFits(id, length, |e.blob|)
    ensures BlockFits(id, length, |e'.blob|) && Slice(e'.blob, id, length) == Slice(e.blob, id, length)
  {
  }

  lemma {:induction false} RouteOfStays(h: Hash, e: Encoder, e': Encoder, length: nat, id: int, topk: seq<int>)
    requires Extends(e, e') && RouteOf(h, e, length, id, topk)
    ensures RouteOf(h, e', length, id, topk)
  {
    SliceStays(e, e', length, id);
  }

  lemma {:induction false} NewRoute(h: Hash, e: Encoder, length: nat, topk: seq<int>)
    requires Inv(h, e, length) && |topk| == length && h.ints(topk) !in e.byDigest
    ensures var e' := AddRoute(h, e, topk).value.0;
      Inv(h, e', length) && Extends(e, e') && RouteOf(h, e', length, |e.unique|, topk)
  {
    var e' := AddRoute(h, e, topk).value.0;
    var last := |e.unique|;
    BlockWithin(last, length, last + 1);
    assert |e'.blob| == (last + 1) * length by {
      assert (last + 1) * length == last * length + length;
    }
    assert Slice(e'.blob, last, length) == topk;
    forall id | 0 <= id < |e'.unique|
      ensures RouteKept(h, e', length, id)
    {
      if id < last {
        assert RouteKept(h, e, length, id);
        SliceStays(e, e', length, id);
      }
    }
  }

  /** Adding a table keeps all earlier ones and yields a route with exactly this table. */
  lemma {:induction false} AddRouteKeeps(h: Hash, e: Encoder, length: nat, topk: seq<int>)
    requires Inv(h, e, length) && |topk| == length && AddRoute(h, e, topk).Ok?
    ensures var (e', id) := AddRoute(h, e, topk).value;
      && Inv(h, e', length) && Extends(e, e') && RouteOf(h, e', length, id, topk)
      && e'.raw.Values == e.raw.Values + {topk}
  {
    var d := h.ints(topk);
    var (e', id) := AddRoute(h, e, topk).value;
    if d !in e.byDigest {
      NewRoute(h, e, length, topk);
      assert e'.raw.Values == e.raw.Values + {topk} by {
        forall t | t in e.raw.Values
          ensures t in e'.raw.Values
        {
          var k :| k in e.raw && e.raw[k] == t;
          assert e'.raw[k] == t;
        }
        assert e'.raw[d] == topk;
      }
    } else {
      assert RouteKept(h, e, length, id);
      assert e.raw[d] in e.raw.Values;
      assert e.raw.Values == e.raw.Values + {topk};
    }
  }

  /** Tables collected so far have different digests unless they are equal. */
  ghost predicate NoCollision(h: Hash, tables: set<seq<int>>)
  {
    forall t, u :: t in tables && u in tables && h.ints(t) == h.ints(u) ==> t == u
  }

  lemma {:induction false} RawDigest(h: Hash, e: Encoder, length: nat, d: Digest)
    requires Inv(h, e, length) && d in e.raw
    ensures h.ints(e.raw[d]) == d
  {
    assert RouteKept(h, e, length, e.byDigest[d]);
  }

  lemma {:induction false} CollectedDiffer(h: Hash, e: Encoder, length: nat)
    requires Inv(h, e, length)
    ensures NoCollision(h, e.raw.Values)
  {
    forall t, u | t in e.raw.Values && u in e.raw.Values && h.ints(t) == h.ints(u)
      ensures t == u
    {
      var d :| d in e.raw && e.raw[d] == t;
      var d' :| d' in e.raw && e.raw[d'] == u;
      RawDigest(h, e, length, d);
      RawDigest(h, e, length, d');
    }
  }

  /** A reported collision is one: two different tables with one digest. */
  lemma {:induction false} CollisionIsReal(h: Hash, e: Encoder, length: nat, topk: seq<int>)
    requires Inv(h, e, length) && AddRoute(h, e, topk).Err?
    ensures !NoCollision(h, e.raw.Values + {topk})
  {
    var d := h.ints(topk);
    RawDigest(h, e, length, d);
    assert e.raw[d] in e.raw.Values;
  }

  // Encoding

  /** The optional numbers of a record convert. */
  predicate Convertible(r: Record)
  {
    (r.sourceCall.Some? ==> r.sourceCall.value.Int()) && (r.payloadSeed.Some? ==> r.payloadSeed.value.Int())
  }

  ghost predicate RankUsable(h: Hash, shape: Shape, records: seq<Record>)
  {
    forall c :: 0 <= c < |records| ==> Usable(h, shape, records[c])
  }

  ghost predicate RankConvertible(records: seq<Record>)
  {
    forall c :: 0 <= c < |records| ==> Convertible(records[c])
  }

  /** An optional number, converted, or its default. */
  function NumberOr(v: Option<Number>, default: int): int
  {
    if v.Some? && v.value.Int() then v.value.n else default
  }

  function DescriptorsOf(r: Record): Descriptors
  {
    if r.descriptors.Some? then r.descriptors.value else Object("{}")
  }

  function Compact(r: Record, call: int, id: int): CompactCall
  {
    CompactCall(call, NumberOr(r.sourceCall, call), id, r.tokensPerExpert, r.remoteStats, r.expertsToCopy,
                NumberOr(r.payloadSeed, 0), DescriptorsOf(r))
  }

  /** `calls` are the compact forms of `records`, each pointing to the route of its table. */
  ghost predicate Encoded(h: Hash, e: Encoder, length: nat, records: seq<Record>, calls: seq<CompactCall>)
  {
    && |calls| <= |records|
    && forall c :: 0 <= c < |calls| ==>
      calls[c] == Compact(records[c], c, calls[c].routeId) && RouteOf(h, e, length, calls[c].routeId, records[c].topk)
  }

  lemma {:induction false} EncodedStays(
    h: Hash, e: Encoder, e': Encoder, length: nat, records: seq<Record>, calls: seq<CompactCall>)
    requires Extends(e, e') && Encoded(h, e, length, records, calls)
    ensures Encoded(h, e', length, records, calls)
  {
    forall c | 0 <= c < |calls|
      ensures RouteOf(h, e', length, calls[c].routeId, records[c].topk)
    {
      RouteOfStays(h, e, e', length, calls[c].routeId, records[c].topk);
    }
  }

  /** The tables of the first `n` records. */
  ghost function TablesOf(records: seq<Record>, n: nat): set<seq<int>>
    requires n <= |records|
  {
    if n == 0 then {} else TablesOf(records, n - 1) + {records[n - 1].topk}
  }

  /** The tables of the first `n` ranks. */
  ghost function TablesBelow(ranks: seq<seq<Record>>, n: nat): set<seq<int>>
    requires n <= |ranks|
  {
    if n == 0 then {} else TablesBelow(ranks, n - 1) + TablesOf(ranks[n - 1], |ranks[n - 1]|)
  }

  predicate Usable(h: Hash, shape: Shape, r: Record)
  {
    |r.topk| == shape.Length() && h.ints(r.topk) == r.topkDigest && ValidRoutes(r.topk, shape.experts)
  }

  /** The first `|calls|` records of a rank are encoded. */
  ghost predicate RankEncoded(
    h: Hash, shape: Shape, before: Encoder, records: seq<Record>, e: Encoder, calls: seq<CompactCall>)
  {
    var length := shape.Length();
    && Inv(h, e, length) && Extends(before, e) && ValidRoutes(e.blob, shape.experts)
    && Encoded(h, e, length, records, calls)
    && e.raw.Values == before.raw.Values + TablesOf(records, |calls|)
  }

  lemma {:induction false} RankEncodedMore(
    h: Hash, shape: Shape, before: Encoder, records: seq<Record>, e: Encoder, calls: seq<CompactCall>)
    requires RankEncoded(h, shape, before, records, e, calls) && |calls| < |records|
    requires Usable(h, shape, records[|calls|]) && AddRoute(h, e, records[|calls|].topk).Ok?
    ensures var (e', id) := AddRoute(h, e, records[|calls|].topk).value;
      RankEncoded(h, shape, before, records, e', calls + [Compact(records[|calls|], |calls|, id)])
  {
    var topk := records[|calls|].topk;
    AddRouteKeeps(h, e, shape.Length(), topk);
    AddRouteValid(h, e, shape.experts, topk);
    var (e', id) := AddRoute(h, e, topk).value;
    EncodedStays(h, e, e', shape.Length(), records, calls);
    EncodedMore(h, e', shape.Length(), records, calls, id);
  }

  lemma {:induction false} AddRouteValid(h: Hash, e: Encoder, experts: nat, topk: seq<int>)
    requires ValidRoutes(e.blob, experts) && ValidRoutes(topk, experts) && AddRoute(h, e, topk).Ok?
    ensures ValidRoutes(AddRoute(h, e, topk).value.0.blob, experts)
  {
  }

  lemma {:induction false} EncodedMore(
    h: Hash, e: Encoder, length: nat, records: seq<Record>, calls: seq<CompactCall>, id: int)
    requires Encoded(h, e, length, records, calls) && |calls| < |records|
    requires RouteOf(h, e, length, id, records[|calls|].topk)
    ensures Encoded(h, e, length, records, calls + [Compact(records[|calls|], |calls|, id)])
  {
  }

  lemma {:induction false} RankCollision(
    h: Hash, shape: Shape, before: Encoder, records: seq<Record>, e: Encoder, calls: seq<CompactCall>)
    requires RankEncoded(h, shape, before, records, e, calls) && |calls| < |records|
    requires AddRoute(h, e, records[|calls|].topk).Err?
    ensures !NoCollision(h, before.raw.Values + TablesOf(records, |records|))
  {
    var topk := records[|calls|].topk;
    CollisionIsReal(h, e, shape.Length(), topk);
    TablesGrow(records, |calls| + 1);
    assert e.raw.Values + {topk} <= before.raw.Values + TablesOf(records, |records|);
  }

  /** The calls of one rank. */
  method EncodeRank(h: Hash, shape: Shape, before: Encoder, records: seq<Record>)
    returns (r: Result<(Encoder, seq<CompactCall>), MetaError>)
    requires Inv(h, before, shape.Length()) && ValidRoutes(before.blob, shape.experts)
    ensures r.Ok? ==>
      |r.value.1| == |records| && RankEncoded(h, shape, before, records, r.value.0, r.value.1)
    ensures r.Ok? ==> RankConvertible(records)
    ensures r.Err? ==> r.error == InvalidTopK || r.error == Collision || r.error == InvalidNumber
    ensures r.Err? && r.error == InvalidTopK ==> !RankUsable(h, shape, records)
    ensures r.Err? && r.error == InvalidNumber ==> !RankConvertible(records)
    ensures r.Err? && r.error == Collision ==>
      !NoCollision(h, before.raw.Values + TablesOf(records, |records|))
  {
    var e := before;
    var calls: seq<CompactCall> := [];
    for call := 0 to |records|
      invariant |calls| == call && RankEncoded(h, shape, before, records, e, calls)
      invariant forall c :: 0 <= c < call ==> Convertible(records[c])
    {
      if !Usable(h, shape, records[call]) {
        return Err(InvalidTopK);
      }
      var added := AddRoute(h, e, records[call].topk);
      if added.Err? {
        RankCollision(h, shape, before, records, e, calls);
        return Err(Collision);
      }
      if !Convertible(records[call]) {
        return Err(InvalidNumber);
      }
      RankEncodedMore(h, shape, before, records, e, calls);
      calls := calls + [Compact(records[call], call, added.value.1)];
      e := added.value.0;
    }
    return Ok((e, calls));
  }

  lemma {:induction false} TablesGrow(records: seq<Record>, n: nat)
    requires n <= |records|
    ensures TablesOf(records, n) <= TablesOf(records, |records|)
    decreases |records| - n
  {
    if n < |records| {
      TablesGrow(records, n + 1);
    }
  }

  lemma {:induction false} RankTablesGrow(ranks: seq<seq<Record>>, n: nat)
    requires n <= |ranks|
    ensures TablesBelow(ranks, n) <= TablesBelow(ranks, |ranks|)
    decreases |ranks| - n
  {
    if n < |ranks| {
      RankTablesGrow(ranks, n + 1);
    }
  }

  // Bundles

  /** Route `id` describes tile `id` of the blob. */
  ghost predicate Tile(h: Hash, length: nat, b: Bundle, id: nat)
    requires id < |b.unique|
  {
    && BlockFits(id, length, |b.blob|)
    && var table := Slice(b.blob, id, length);
      b.unique[id] == Route(id, id * length, length, h.ints(table), h.bytes(table))
  }

  /** The bundle keeps every table once, in the tile of the blob that its number names. */
  ghost predicate Tiled(h: Hash, shape: Shape, b: Bundle)
  {
    && |b.blob| == |b.unique| * shape.Length() && ValidRoutes(b.blob, shape.experts)
    && (forall id :: 0 <= id < |b.unique| ==> Tile(h, shape.Length(), b, id))
    && (forall id, id' :: 0 <= id < id' < |b.unique| ==> b.unique[id].digest != b.unique[id'].digest)
  }

  lemma {:induction false} EncoderTiled(h: Hash, shape: Shape, e: Encoder, rankCalls: seq<seq<CompactCall>>)
    requires Inv(h, e, shape.Length()) && ValidRoutes(e.blob, shape.experts)
    ensures Tiled(h, shape, Bundle(e.unique, rankCalls, e.blob))
  {
    var b := Bundle(e.unique, rankCalls, e.blob);
    forall id | 0 <= id < |b.unique|
      ensures Tile(h, shape.Length(), b, id) && e.unique[id].digest in e.byDigest && e.byDigest[e.unique[id].digest] == id
    {
      assert RouteKept(h, e, shape.Length(), id);
    }
  }

  /** Call `c` of rank `r` points to the tile that holds its table. */
  ghost predicate Points(shape: Shape, ranks: seq<seq<Record>>, b: Bundle, r: nat, c: nat)
  {
    && r < |ranks| && r < |b.rankCalls| && c < |ranks[r]| && c < |b.rankCalls[r]|
    && var call := b.rankCalls[r][c];
      && call == Compact(ranks[r][c], c, call.routeId)
      && 0 <= call.routeId < |b.unique| && BlockFits(call.routeId, shape.Length(), |b.blob|)
      && Slice(b.blob, call.routeId, shape.Length()) == ranks[r][c].topk
  }

  ghost predicate BundleOf(h: Hash, shape: Shape, ranks: seq<seq<Record>>, b: Bundle)
  {
    && Tiled(h, shape, b) && |b.rankCalls| == |ranks|
    && (forall r :: 0 <= r < |ranks| ==> |b.rankCalls[r]| == |ranks[r]|)
    && (forall r, c :: 0 <= r < |ranks| && 0 <= c < |ranks[r]| ==> Points(shape, ranks, b, r, c))
  }

  /** All ranks so far are encoded in `e`. */
  ghost predicate RanksEncoded(
    h: Hash, shape: Shape, ranks: seq<seq<Record>>, e: Encoder, rankCalls: seq<seq<CompactCall>>)
  {
    && |rankCalls| <= |ranks| && Inv(h, e, shape.Length()) && ValidRoutes(e.blob, shape.experts)
    && (forall r :: 0 <= r < |rankCalls| ==>
      |rankCalls[r]| == |ranks[r]| && Encoded(h, e, shape.Length(), ranks[r], rankCalls[r]))
    && e.raw.Values == TablesBelow(ranks, |rankCalls|)
  }

  lemma {:induction false} RanksEncodedMore(
    h: Hash, shape: Shape, ranks: seq<seq<Record>>, e: Encoder, rankCalls: seq<seq<CompactCall>>, e': Encoder,
    calls: seq<CompactCall>)
    requires RanksEncoded(h, shape, ranks, e, rankCalls) && |rankCalls| < |ranks|
    requires |calls| == |ranks[|rankCalls|]| && RankEncoded(h, shape, e, ranks[|rankCalls|], e', calls)
    ensures RanksEncoded(h, shape, ranks, e', rankCalls + [calls])
  {
    forall r | 0 <= r < |rankCalls|
      ensures Encoded(h, e', shape.Length(), ranks[r], rankCalls[r])
    {
      EncodedStays(h, e, e', shape.Length(), ranks[r], rankCalls[r]);
    }
  }

  lemma {:induction false} EncoderBundle(
    h: Hash, shape: Shape, ranks: seq<seq<Record>>, e: Encoder, rankCalls: seq<seq<CompactCall>>)
    requires RanksEncoded(h, shape, ranks, e, rankCalls) && |rankCalls| == |ranks|
    ensures BundleOf(h, shape, ranks, Bundle(e.unique, rankCalls, e.blob))
  {
    var b := Bundle(e.unique, rankCalls, e.blob);
    EncoderTiled(h, shape, e, rankCalls);
    forall r, c | 0 <= r < |ranks| && 0 <= c < |ranks[r]|
      ensures Points(shape, ranks, b, r, c)
    {
      assert Encoded(h, e, shape.Length(), ranks[r], rankCalls[r]);
    }
  }

  /** The tables of all records. */
  ghost function AllTables(ranks: seq<seq<Record>>): set<seq<int>>
  {
    TablesBelow(ranks, |ranks|)
  }

  ghost predicate AllUsable(h: Hash, shape: Shape, ranks: seq<seq<Record>>)
  {
    forall r :: 0 <= r < |ranks| ==> RankUsable(h, shape, ranks[r])
  }

  ghost predicate AllConvertible(ranks: seq<seq<Record>>)
  {
    forall r :: 0 <= r < |ranks| ==> RankConvertible(ranks[r])
  }

  /** What is wrong with one rank is wrong with the replay. */
  lemma {:induction false} RankFails(
    h: Hash, shape: Shape, ranks: seq<seq<Record>>, rank: nat, collected: set<seq<int>>)
    requires rank < |ranks| && collected == TablesBelow(ranks, rank)
    ensures !RankUsable(h, shape, ranks[rank]) ==> !AllUsable(h, shape, ranks)
    ensures !RankConvertible(ranks[rank]) ==> !AllConvertible(ranks)
    ensures !NoCollision(h, collected + TablesOf(ranks[rank], |ranks[rank]|)) ==> !NoCollision(h, AllTables(ranks))
  {
    RankTablesGrow(ranks, rank + 1);
  }

  /** The encoder's loops on records that need not be valid. */
  method EncodeRanks(h: Hash, shape: Shape, ranks: seq<seq<Record>>) returns (r: Result<Bundle, MetaError>)
    ensures r.Ok? ==> BundleOf(h, shape, ranks, r.value) && NoCollision(h, AllTables(ranks))
    ensures r.Ok? ==> AllConvertible(ranks)
    ensures r.Err? ==> r.error == InvalidTopK || r.error == Collision || r.error == InvalidNumber
    ensures r.Err? && r.error == InvalidNumber ==> !AllConvertible(ranks)
    ensures r.Err? && r.error == InvalidTopK ==> !AllUsable(h, shape, ranks)
    ensures r.Err? && r.error == Collision ==> !NoCollision(h, AllTables(ranks))
  {
    var e := Encoder(map[], map[], [], []);
    var rankCalls: seq<seq<CompactCall>> := [];
    for rank := 0 to |ranks|
      invariant |rankCalls| == rank && RanksEncoded(h, shape, ranks, e, rankCalls)
      invariant forall k :: 0 <= k < rank ==> RankConvertible(ranks[k])
    {
      var encoded := EncodeRank(h, shape, e, ranks[rank]);
      if encoded.Err? {
        RankFails(h, shape, ranks, rank, e.raw.Values);
        return Err(encoded.error);
      }
      RanksEncodedMore(h, shape, ranks, e, rankCalls, encoded.value.0, encoded.value.1);
      rankCalls := rankCalls + [encoded.value.1];
      e := encoded.value.0;
    }
    EncoderBundle(h, shape, ranks, e, rankCalls);
    CollectedDiffer(h, e, shape.Length());
    return Ok(Bundle(e.unique, rankCalls, e.blob));
  }

  /**
   The encoder: it succeeds exactly on valid replays of at most 256 experts in
   which no two different tables share a digest and all optional numbers convert,
   and returns a faithful bundle.
   */
  method BuildMeta(h: Hash, shape: Shape, ranks: seq<seq<Record>>) returns (r: Result<Bundle, MetaError>)
    ensures r.Ok? <==>
      && shape.experts <= 256 && ValidReplay(h, shape, ranks) && NoCollision(h, AllTables(ranks))
      && AllConvertible(ranks)
    ensures r.Ok? ==> BundleOf(h, shape, ranks, r.value)
    ensures r.Ok? ==> forall i :: 0 <= i < |r.value.blob| ==> 0 <= r.value.blob[i] < 256
    ensures r.Err? ==> r.error != InvalidTopK && (r.error == TooManyExperts <==> shape.experts > 256)
    ensures r.Err? && r.error == InvalidReplay ==> !ValidReplay(h, shape, ranks)
    ensures r.Err? && r.error == Collision ==> ValidReplay(h, shape, ranks) && !NoCollision(h, AllTables(ranks))
    ensures r.Err? && r.error == InvalidNumber ==> ValidReplay(h, shape, ranks) && !AllConvertible(ranks)
  {
    if shape.experts > 256 {
      return Err(TooManyExperts);
    }
    if !ValidReplay(h, shape, ranks) {
      return Err(InvalidReplay);
    }
    assert AllUsable(h, shape, ranks) by {
      assert forall k, c :: 0 <= k < |ranks| && 0 <= c < |ranks[k]| && ValidRecord(h, shape, ranks[k][c], c) ==>
        Usable(h, shape, ranks[k][c]);
    }
    r := EncodeRanks(h, shape, ranks);
  }

  // Expanding a bundle

  /** What `_validate_rank_calls` checks of one route. */
  predicate RouteLoads(h: Hash, shape: Shape, b: Bundle, id: nat)
    requires id < |b.unique|
  {
    var u, length := b.unique[id], shape.Length();
    && u.routeId == id && u.offset == id * length && u.length == length && BlockFits(id, length, |b.blob|)
    && var table := Slice(b.blob, id, length);
      h.bytes(table) == u.payloadDigest && ValidRoutes(table, shape.experts) && h.ints(table) == u.digest
  }

  predicate CopiesLoad(shape: Shape, copies: seq<seq<Number>>)
  {
    forall i, j :: 0 <= i < |copies| && 0 <= j < |copies[i]| ==>
      copies[i][j].Plain? && -1 <= copies[i][j].n < shape.experts
  }

  /** What `_validate_rank_calls` checks of one call. */
  predicate CallLoads(shape: Shape, b: Bundle, call: CompactCall, c: nat)
  {
    && call.call == c && 0 <= call.routeId < |b.unique| && BlockFits(call.routeId, shape.Length(), |b.blob|)
    && call.sourceCall >= 0
    && AreExactly(call.tokensPerExpert, Histogram(Slice(b.blob, call.routeId, shape.Length()), shape.experts))
    && ValidStats(call.remoteStats)
    && |call.expertsToCopy| == shape.world
    && (forall i :: 0 <= i < |call.expertsToCopy| ==> |call.expertsToCopy[i]| == shape.perRank)
    && CopiesLoad(shape, call.expertsToCopy) && call.descriptors.Object?
  }

  predicate Loads(h: Hash, shape: Shape, b: Bundle)
  {
    && |b.unique| > 0 && (forall id :: 0 <= id < |b.unique| ==> RouteLoads(h, shape, b, id))
    && |b.blob| == |b.unique| * shape.Length()
    && |b.rankCalls| == shape.world && (forall r :: 0 <= r < |b.rankCalls| ==> |b.rankCalls[r]| == shape.forwardCalls)
    && (forall r, c :: 0 <= r < |b.rankCalls| && 0 <= c < |b.rankCalls[r]| ==> CallLoads(shape, b, b.rankCalls[r][c], c))
  }

  /** The record that a compact call stands for. */
  function Expand(h: Hash, b: Bundle, call: CompactCall, c: int): Record
    requires 0 <= call.routeId < |b.unique|
    requires var u := b.unique[call.routeId]; 0 <= u.offset <= u.offset + u.length <= |b.blob|
  {
    var u := b.unique[call.routeId];
    var table := b.blob[u.offset..u.offset + u.length];
    Record(Plain(c), table, h.ints(table), Some(Plain(call.sourceCall)), call.tokensPerExpert, call.remoteStats,
           call.expertsToCopy, Some(Plain(call.payloadSeed)), Some(call.descriptors))
  }

  /** Offsets of a bundle that loads stay inside the blob. */
  lemma {:induction false} LoadsExpand(h: Hash, shape: Shape, b: Bundle, r: nat, c: nat)
    requires Loads(h, shape, b) && r < |b.rankCalls| && c < |b.rankCalls[r]|
    ensures CallLoads(shape, b, b.rankCalls[r][c], c)
    ensures var u := b.unique[b.rankCalls[r][c].routeId];
      0 <= u.offset <= u.offset + u.length <= |b.blob|
    ensures Expand(h, b, b.rankCalls[r][c], c).topk == Slice(b.blob, b.rankCalls[r][c].routeId, shape.Length())
  {
    assert RouteLoads(h, shape, b, b.rankCalls[r][c].routeId);
  }

  function ExpandCall(h: Hash, shape: Shape, b: Bundle, r: nat, c: nat): Record
    requires Loads(h, shape, b) && r < |b.rankCalls| && c < |b.rankCalls[r]|
  {
    LoadsExpand(h, shape, b, r, c);
    Expand(h, b, b.rankCalls[r][c], c)
  }

  /** `ranks` holds the expansion of every call of the bundle. */
  ghost predicate IsExpansion(h: Hash, shape: Shape, b: Bundle, ranks: seq<seq<Record>>)
    requires Loads(h, shape, b)
  {
    && |ranks| == |b.rankCalls| && (forall r :: 0 <= r < |ranks| ==> |ranks[r]| == |b.rankCalls[r]|)
    && (forall r, c :: 0 <= r < |ranks| && 0 <= c < |ranks[r]| ==> ranks[r][c] == ExpandCall(h, shape, b, r, c))
  }

  method MaterializeRank(h: Hash, shape: Shape, b: Bundle, r: nat) returns (calls: seq<Record>)
    requires Loads(h, shape, b) && r < |b.rankCalls|
    ensures |calls| == |b.rankCalls[r]|
    ensures forall c :: 0 <= c < |calls| ==> calls[c] == ExpandCall(h, shape, b, r, c)
  {
    calls := [];
    for c := 0 to |b.rankCalls[r]|
      invariant |calls| == c && forall k :: 0 <= k < c ==> calls[k] == ExpandCall(h, shape, b, r, k)
    {
      LoadsExpand(h, shape, b, r, c);
      calls := calls + [Expand(h, b, b.rankCalls[r][c], c)];
    }
  }

  /** Expand a bundle that loads; the expanded replay is checked once more before it is handed out. */
  method Materialize(h: Hash, shape: Shape, b: Bundle) returns (r: Result<seq<seq<Record>>, MetaError>)
    requires Loads(h, shape, b)
    ensures r.Ok? ==> IsExpansion(h, shape, b, r.value) && ValidReplay(h, shape, r.value)
    ensures r.Err? ==> exists ranks :: IsExpansion(h, shape, b, ranks) && !ValidReplay(h, shape, ranks)
  {
    var ranks: seq<seq<Record>> := [];
    for rank := 0 to |b.rankCalls|
      invariant |ranks| == rank && forall k :: 0 <= k < rank ==> |ranks[k]| == |b.rankCalls[k]|
      invariant forall k, c :: 0 <= k < rank && 0 <= c < |ranks[k]| ==> ranks[k][c] == ExpandCall(h, shape, b, k, c)
    {
      var calls := MaterializeRank(h, shape, b, rank);
      ranks := ranks + [calls];
    }
    assert IsExpansion(h, shape, b, ranks);
    if !ValidReplay(h, shape, ranks) {
      return Err(InvalidReplay);
    }
    return Ok(ranks);
  }

  // Round trips

  /** An optional number comes back as the plain integer it converts to, an absent one as its default. */
  predicate ComesBack(was: Option<Number>, default: int, now: Option<Number>)
  {
    && (was == None ==> now == Some(Plain(default)))
    && (was.Some? && was.value.Int() ==> now == Some(Plain(was.value.n)))
  }

  /**
   What the expansion of a record has to agree with: its table, digest, counts,
   statistics and copies as they were, its descriptors or an empty object, its call
   number, and its optional numbers.
   */
  predicate Reproduces(was: Record, call: int, now: Record)
  {
    && now.topk == was.topk && now.topkDigest == was.topkDigest && now.tokensPerExpert == was.tokensPerExpert
    && now.remoteStats == was.remoteStats && now.expertsToCopy == was.expertsToCopy
    && (was.descriptors.Some? ==> now.descriptors == was.descriptors)
    && (was.descriptors.None? ==> now.descriptors == Some(Object("{}")))
    && now.call == Plain(call) && ComesBack(was.sourceCall, call, now.sourceCall)
    && ComesBack(was.payloadSeed, 0, now.payloadSeed)
  }

  /** Two calls share a route if and only if their TopK tables are equal. */
  lemma {:induction false} SharedRoute(
    h: Hash, shape: Shape, ranks: seq<seq<Record>>, b: Bundle, r: nat, c: nat, r': nat, c': nat)
    requires BundleOf(h, shape, ranks, b) && r < |ranks| && c < |ranks[r]| && r' < |ranks| && c' < |ranks[r']|
    ensures b.rankCalls[r][c].routeId == b.rankCalls[r'][c'].routeId <==> ranks[r][c].topk == ranks[r'][c'].topk
  {
    assert Points(shape, ranks, b, r, c) && Points(shape, ranks, b, r', c');
    var id, id' := b.rankCalls[r][c].routeId, b.rankCalls[r'][c'].routeId;
    assert Tile(h, shape.Length(), b, id) && Tile(h, shape.Length(), b, id');
    if ranks[r][c].topk == ranks[r'][c'].topk {
      assert b.unique[id].digest == b.unique[id'].digest;
    }
  }

  /** Expanding an encoded call gives back its record. */
  lemma {:induction false} CallRoundTrip(h: Hash, shape: Shape, ranks: seq<seq<Record>>, b: Bundle, r: nat, c: nat)
    requires BundleOf(h, shape, ranks, b) && ValidReplay(h, shape, ranks) && Loads(h, shape, b)
    requires r < |ranks| && c < |ranks[r]|
    ensures r < |b.rankCalls| && c < |b.rankCalls[r]|
    ensures Reproduces(ranks[r][c], c, ExpandCall(h, shape, b, r, c))
  {
    assert Points(shape, ranks, b, r, c);
    LoadsExpand(h, shape, b, r, c);
    assert ValidRecord(h, shape, ranks[r][c], c);
  }

  /**
   Encoding and expanding reproduces every record of every rank, field by field, and
   the result is again valid.
   */
  lemma {:induction false} RoundTrip(
    h: Hash, shape: Shape, ranks: seq<seq<Record>>, b: Bundle, expanded: seq<seq<Record>>)
    requires BundleOf(h, shape, ranks, b) && ValidReplay(h, shape, ranks) && Loads(h, shape, b)
    requires IsExpansion(h, shape, b, expanded)
    ensures |expanded| == |ranks| && forall r :: 0 <= r < |ranks| ==> |expanded[r]| == |ranks[r]|
    ensures forall r, c :: 0 <= r < |ranks| && 0 <= c < |ranks[r]| ==> Reproduces(ranks[r][c], c, expanded[r][c])
    ensures ValidReplay(h, shape, expanded)
  {
    forall r, c | 0 <= r < |ranks| && 0 <= c < |ranks[r]|
      ensures Reproduces(ranks[r][c], c, expanded[r][c]) && ValidRecord(h, shape, expanded[r][c], c)
    {
      CallRoundTrip(h, shape, ranks, b, r, c);
      assert ValidRecord(h, shape, ranks[r][c], c);
    }
  }

  /** What the loader demands of a record and the encoder does not. */
  predicate LoadableRecord(shape: Shape, r: Record, call: int)
  {
    && (r.sourceCall == None ==> call >= 0)
    && (r.sourceCall.Some? && r.sourceCall.value.Int() ==> r.sourceCall.value.n >= 0)
    && CopiesLoad(shape, r.expertsToCopy) && PlainList(r.tokensPerExpert)
    && (r.descriptors.Some? ==> r.descriptors.value.Object?)
  }

  /** A list of plain integers. */
  predicate PlainList(c: Counts)
  {
    c.CountList? && forall e :: 0 <= e < |c.items| ==> c.items[e].Plain?
  }

  lemma {:induction false} RoutesLoad(h: Hash, shape: Shape, b: Bundle, id: nat)
    requires Tiled(h, shape, b) && id < |b.unique|
    ensures RouteLoads(h, shape, b, id)
  {
    assert Tile(h, shape.Length(), b, id);
  }

  lemma {:induction false} CallLoadsIff(h: Hash, shape: Shape, ranks: seq<seq<Record>>, b: Bundle, r: nat, c: nat)
    requires BundleOf(h, shape, ranks, b) && ValidReplay(h, shape, ranks) && r < |ranks| && c < |ranks[r]|
    ensures r < |b.rankCalls| && c < |b.rankCalls[r]|
    ensures CallLoads(shape, b, b.rankCalls[r][c], c) <==> LoadableRecord(shape, ranks[r][c], c)
  {
    assert Points(shape, ranks, b, r, c);
    assert ValidRecord(h, shape, ranks[r][c], c);
  }

  /**
   The loader does not accept everything the encoder writes: it does if and only
   if all source calls are non-negative, all copy tables hold plain integers that name
   experts or -1, all histograms are lists of plain integers and all descriptors are
   objects.
   */
  lemma {:induction false} LoadsIff(h: Hash, shape: Shape, ranks: seq<seq<Record>>, b: Bundle)
    requires shape.Valid() && BundleOf(h, shape, ranks, b) && ValidReplay(h, shape, ranks)
    ensures Loads(h, shape, b) <==>
      forall r, c :: 0 <= r < |ranks| && 0 <= c < |ranks[r]| ==> LoadableRecord(shape, ranks[r][c], c)
  {
    forall id | 0 <= id < |b.unique|
      ensures RouteLoads(h, shape, b, id)
    {
      RoutesLoad(h, shape, b, id);
    }
    forall r, c | 0 <= r < |ranks| && 0 <= c < |ranks[r]|
      ensures CallLoads(shape, b, b.rankCalls[r][c], c) <==> LoadableRecord(shape, ranks[r][c], c)
    {
      CallLoadsIff(h, shape, ranks, b, r, c);
    }
    assert Points(shape, ranks, b, 0, 0);
  }

  /** The record of a one-route replay, which the loader accepts. */
  function SmallRecord(h: Hash): Record
  {
    Record(Plain(0), [0], h.ints([0]), None, CountList([Plain(1)]), [Plain(0), Plain(0)], [[Plain(-1)]], None, None)
  }

  const SMALL_SHAPE := Shape(1, 1, 1, 1, 1, 1)

  /** A one-route replay that is encoded is loaded exactly when its record is loadable. */
  lemma {:induction false} SmallReplay(h: Hash, record: Record)
    requires ValidRecord(h, SMALL_SHAPE, record, 0) && Convertible(record)
    ensures var ranks := [[record]];
      && ValidReplay(h, SMALL_SHAPE, ranks) && NoCollision(h, AllTables(ranks)) && AllConvertible(ranks)
      && forall b :: BundleOf(h, SMALL_SHAPE, ranks, b) ==>
        (Loads(h, SMALL_SHAPE, b) <==> LoadableRecord(SMALL_SHAPE, record, 0))
  {
    var ranks := [[record]];
    assert AllTables(ranks) == {record.topk} by {
      assert TablesOf(ranks[0], 1) == TablesOf(ranks[0], 0) + {record.topk};
      assert TablesBelow(ranks, 1) == TablesBelow(ranks, 0) + TablesOf(ranks[0], 1);
    }
    forall b | BundleOf(h, SMALL_SHAPE, ranks, b)
      ensures Loads(h, SMALL_SHAPE, b) <==> LoadableRecord(SMALL_SHAPE, record, 0)
    {
      LoadsIff(h, SMALL_SHAPE, ranks, b);
      assert ranks[0][0] == record;
    }
  }

  /**
   Four replays that the encoder accepts and the loader rejects: a copy table that names
   an expert that does not exist, a negative source call, a histogram with a float in it
   and descriptors that are not an object.
   */
  lemma {:induction false} EncodedButNotLoaded(h: Hash, record: Record)
    requires
      || record == SmallRecord(h).(expertsToCopy := [[Plain(7)]])
      || record == SmallRecord(h).(sourceCall := Some(Plain(-1)))
      || record == SmallRecord(h).(tokensPerExpert := CountList([Converts(1)]))
      || record == SmallRecord(h).(descriptors := Some(NotAnObject))
    ensures SMALL_SHAPE.Valid() && ValidReplay(h, SMALL_SHAPE, [[record]])
    ensures NoCollision(h, AllTables([[record]])) && AllConvertible([[record]])
    ensures forall b :: BundleOf(h, SMALL_SHAPE, [[record]], b) ==> !Loads(h, SMALL_SHAPE, b)
  {
    assert Histogram([0], 1) == [1];
    assert ValidRecord(h, SMALL_SHAPE, record, 0);
    SmallReplay(h, record);
    if record.expertsToCopy == [[Plain(7)]] {
      assert record.expertsToCopy[0][0].n == 7;
    } else if record.tokensPerExpert == CountList([Converts(1)]) {
      assert record.tokensPerExpert.items[0] == Converts(1);
    }
    assert !LoadableRecord(SMALL_SHAPE, record, 0);
  }
}
