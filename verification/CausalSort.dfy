/** The deterministic causal sort of knowledge events, and the winner it picks. */
module CausalSort {
  import opened Order
  import opened Results
  import opened Git

  /** A knowledge event: its id, the parts of its layer key, and the parents it names. */
  datatype Node = Node(eventId: string, createdAt: string, deviceId: string, deviceSeq: Option<nat>, parents: seq<string>)

  const ID_LENGTH := 64

  const SEQ_WIDTH := 20

  function Decimal(n: nat): (r: string)
    ensures |r| > 0
  {
    (if n < 10 then "" else Decimal(n / 10)) + [('0' as int + n % 10) as char]
  }

  /** `padStart` with zeros. */
  function PadStart(s: string, width: nat): string {
    seq(if |s| < width then width - |s| else 0, _ => '0') + s
  }

  function SeqText(seqNo: Option<nat>): string {
    if seqNo.Some? then PadStart(Decimal(seqNo.value), SEQ_WIDTH) else ""
  }

  /** `sameLayerKeyV1`. */
  function LayerKey(n: Node): string {
    n.createdAt + ['\0'] + n.deviceId + ['\0'] + SeqText(n.deviceSeq) + ['\0'] + n.eventId
  }

  predicate NodeLe(a: Node, b: Node) { PathLe(LayerKey(a), LayerKey(b)) }

  /** A validated scan: event ids are digests of one length, and no id is used twice. */
  ghost predicate Proper(s: set<Node>) {
    && (forall n | n in s :: |n.eventId| == ID_LENGTH)
    && (forall a, b | a in s && b in s && a.eventId == b.eventId :: a == b)
  }

  // ---------- what decides ----------

  /** At the first character in which the two differ the first has the smaller code; a proper prefix comes first. */
  predicate Earlier(a: string, b: string) {
    exists n | 0 <= n <= |a| && n <= |b| :: a[..n] == b[..n] && n < |b| && (n == |a| || a[n] < b[n])
  }

  function Power(base: nat, n: nat): nat { if n == 0 then 1 else base * Power(base, n - 1) }

  /** Time of creation first, then the device, then the device's own number where it has one, then the id. */
  predicate Precedes(a: Node, b: Node) {
    if a.createdAt != b.createdAt then Earlier(a.createdAt, b.createdAt)
    else if a.deviceId != b.deviceId then Earlier(a.deviceId, b.deviceId)
    else if a.deviceSeq != b.deviceSeq then a.deviceSeq.None? || (b.deviceSeq.Some? && a.deviceSeq.value < b.deviceSeq.value)
    else Earlier(a.eventId, b.eventId)
  }

  /** No separator inside a part of the key, and a number of at most twenty digits. */
  predicate PlainParts(n: Node) {
    '\0' !in n.createdAt && '\0' !in n.deviceId && (n.deviceSeq.Some? ==> n.deviceSeq.value < Power(10, SEQ_WIDTH))
  }

  lemma {:induction false} EarlierIsLess(a: string, b: string)
    requires Earlier(a, b)
    ensures PathLt(a, b)
  {
    var n :| 0 <= n <= |a| && n <= |b| && a[..n] == b[..n] && n < |b| && (n == |a| || a[n] < b[n]);
    if n > 0 {
      assert a[0] == a[..n][0] == b[..n][0] == b[0];
      assert a[1..][..n - 1] == a[..n][1..] && b[1..][..n - 1] == b[..n][1..];
      EarlierIsLess(a[1..], b[1..]);
    }
  }

  /** A part that comes earlier decides, whatever follows the separator. */
  lemma PartDecides(before: string, a: string, b: string, x: string, y: string)
    requires Earlier(a, b) && '\0' !in b
    ensures PathLt(before + a + ['\0'] + x, before + b + ['\0'] + y)
  {
    var n :| 0 <= n <= |a| && n <= |b| && a[..n] == b[..n] && n < |b| && (n == |a| || a[n] < b[n]);
    var left, right := before + a + ['\0'] + x, before + b + ['\0'] + y;
    var k := |before| + n;
    assert left[..k] == before + a[..n] && right[..k] == before + b[..n];
    assert right[k] == b[n] && b[n] in b && left[k] == if n == |a| then '\0' else a[n];
    assert Earlier(left, right);
    EarlierIsLess(left, right);
  }

  /** The last `width` digits of a number. */
  function Digits(n: nat, width: nat): (r: string)
    ensures |r| == width
  {
    if width == 0 then "" else Digits(n / 10, width - 1) + [('0' as int + n % 10) as char]
  }

  lemma {:induction false} PaddedDigits(n: nat, width: nat)
    requires 0 < width && n < Power(10, width)
    ensures PadStart(Decimal(n), width) == Digits(n, width)
  {
    var digit := [('0' as int + n % 10) as char];
    if n < 10 {
      assert Decimal(n) == digit;
      ZeroDigits(width - 1);
      assert n / 10 == 0;
    } else {
      assert width > 1 by { assert Power(10, 1) == 10 * Power(10, 0) == 10; }
      assert n / 10 < Power(10, width - 1);
      PaddedDigits(n / 10, width - 1);
      assert PadStart(Decimal(n), width) == PadStart(Decimal(n / 10), width - 1) + digit;
    }
  }

  lemma {:induction false} ZeroDigits(width: nat)
    ensures Digits(0, width) == seq(width, _ => '0')
  {
    if width > 0 { ZeroDigits(width - 1); }
  }

  lemma {:induction false} DigitsAscend(n: nat, m: nat, width: nat)
    requires n < m < Power(10, width)
    ensures Earlier(Digits(n, width), Digits(m, width))
  {
    var a, b := Digits(n, width), Digits(m, width);
    assert width > 0;
    var left, right := Digits(n / 10, width - 1), Digits(m / 10, width - 1);
    if n / 10 == m / 10 {
      assert a[..width - 1] == left == right == b[..width - 1];
      assert a[width - 1] < b[width - 1];
    } else {
      assert m / 10 < Power(10, width - 1);
      DigitsAscend(n / 10, m / 10, width - 1);
      var k :| 0 <= k <= |left| && k <= |right| && left[..k] == right[..k] && k < |right| && (k == |left| || left[k] < right[k]);
      assert a[..k] == left[..k] && b[..k] == right[..k];
    }
  }

  lemma {:induction false} NoSeparator(n: nat, width: nat)
    ensures '\0' !in Digits(n, width)
  {
    if width > 0 { NoSeparator(n / 10, width - 1); }
  }

  /** The layer key compares the parts in that order. */
  lemma KeyDecides(a: Node, b: Node)
    requires PlainParts(a) && PlainParts(b) && Precedes(a, b)
    ensures NodeLe(a, b) && !NodeLe(b, a)
  {
    var ka, kb := LayerKey(a), LayerKey(b);
    var sa, sb := SeqText(a.deviceSeq), SeqText(b.deviceSeq);
    assert PathLt(ka, kb) by {
      if a.createdAt != b.createdAt {
        PartDecides("", a.createdAt, b.createdAt, a.deviceId + ['\0'] + sa + ['\0'] + a.eventId, b.deviceId + ['\0'] + sb + ['\0'] + b.eventId);
        KeyFrom(a, "", a.createdAt, a.deviceId + ['\0'] + sa + ['\0'] + a.eventId);
        KeyFrom(b, "", b.createdAt, b.deviceId + ['\0'] + sb + ['\0'] + b.eventId);
      } else if a.deviceId != b.deviceId {
        PartDecides(a.createdAt + ['\0'], a.deviceId, b.deviceId, sa + ['\0'] + a.eventId, sb + ['\0'] + b.eventId);
        KeyFrom(a, a.createdAt + ['\0'], a.deviceId, sa + ['\0'] + a.eventId);
        KeyFrom(b, b.createdAt + ['\0'], b.deviceId, sb + ['\0'] + b.eventId);
      } else if a.deviceSeq != b.deviceSeq {
        var before := a.createdAt + ['\0'] + a.deviceId + ['\0'];
        SeqDecides(a.deviceSeq, b.deviceSeq);
        PartDecides(before, sa, sb, a.eventId, b.eventId);
      } else {
        var before := a.createdAt + ['\0'] + a.deviceId + ['\0'] + sa + ['\0'];
        IdDecides(before, a.eventId, b.eventId);
      }
    }
    PathLeTotal(ka, kb);
  }

  lemma KeyFrom(n: Node, before: string, part: string, rest: string)
    requires before + part + ['\0'] + rest == LayerKey(n)
             || (before == "" && part == n.createdAt && rest == n.deviceId + ['\0'] + SeqText(n.deviceSeq) + ['\0'] + n.eventId)
             || (before == n.createdAt + ['\0'] && part == n.deviceId && rest == SeqText(n.deviceSeq) + ['\0'] + n.eventId)
    ensures before + part + ['\0'] + rest == LayerKey(n)
  {
    assert "" + part == part;
  }

  lemma SeqDecides(a: Option<nat>, b: Option<nat>)
    requires a.None? ==> b.Some?
    requires a.Some? ==> b.Some? && a.value < b.value
    requires b.Some? ==> b.value < Power(10, SEQ_WIDTH)
    ensures Earlier(SeqText(a), SeqText(b)) && '\0' !in SeqText(b)
  {
    PaddedDigits(b.value, SEQ_WIDTH);
    NoSeparator(b.value, SEQ_WIDTH);
    if a.Some? {
      PaddedDigits(a.value, SEQ_WIDTH);
      DigitsAscend(a.value, b.value, SEQ_WIDTH);
    } else {
      assert SeqText(a)[..0] == SeqText(b)[..0];
    }
  }

  lemma IdDecides(before: string, a: string, b: string)
    requires Earlier(a, b)
    ensures PathLt(before + a, before + b)
  {
    var n :| 0 <= n <= |a| && n <= |b| && a[..n] == b[..n] && n < |b| && (n == |a| || a[n] < b[n]);
    var k := |before| + n;
    assert (before + a)[..k] == before + a[..n] && (before + b)[..k] == before + b[..n];
    assert Earlier(before + a, before + b);
    EarlierIsLess(before + a, before + b);
  }

  function Ids(s: set<Node>): set<string> { set n | n in s :: n.eventId }

  /** The layer key ends with the id, so no two events tie. */
  lemma KeysDiffer(s: set<Node>, a: Node, b: Node)
    requires Proper(s) && a in s && b in s && NodeLe(a, b) && NodeLe(b, a)
    ensures a == b
  {
    PathAntisymmetric(LayerKey(a), LayerKey(b));
    var ka, kb := LayerKey(a), LayerKey(b);
    assert ka[|ka| - ID_LENGTH..] == a.eventId && kb[|kb| - ID_LENGTH..] == b.eventId;
  }

  lemma NodeLePreorder()
    ensures TotalPreorder(NodeLe)
  {
    hide LayerKey, PathLe;
    forall x, y ensures NodeLe(x, y) || NodeLe(y, x) { PathLeTotal(LayerKey(x), LayerKey(y)); }
    forall x, y, z | NodeLe(x, y) && NodeLe(y, z) ensures NodeLe(x, z) {
      PathLeTransitive(LayerKey(x), LayerKey(y), LayerKey(z));
    }
  }

  // ---------- the order as a function of the set of events ----------

  /** Events not yet placed whose parents in the set all are. */
  ghost function Available(s: set<Node>, done: set<string>): set<Node> {
    set n | n in s && n.eventId !in done && forall p | p in n.parents && p in Ids(s) :: p in done
  }

  ghost predicate IsLeast(n: Node, s: set<Node>) {
    n in s && forall m | m in s :: NodeLe(n, m)
  }

  lemma {:induction false} LeastExists(s: set<Node>)
    requires s != {}
    ensures exists n :: IsLeast(n, s)
  {
    hide NodeLe;
    NodeLePreorder();
    var x :| x in s;
    assert NodeLe(x, x);
    if y :| y in s && y != x {
      assert y in s - {x};
      LeastExists(s - {x});
      var m :| IsLeast(m, s - {x});
      var least := if NodeLe(m, x) then m else x;
      forall z | z in s ensures NodeLe(least, z) {
        if z != x { assert z in s - {x}; }
      }
      assert IsLeast(least, s);
    } else {
      assert IsLeast(x, s);
    }
  }

  ghost function Least(s: set<Node>): (n: Node)
    requires s != {}
    ensures IsLeast(n, s)
  {
    LeastExists(s);
    var n :| IsLeast(n, s);
    n
  }

  lemma LeastIsMember(s: set<Node>)
    requires s != {}
    ensures Least(s) in s
  {}

  ghost function Rest(s: set<Node>, done: set<string>): set<Node> {
    set n | n in s && n.eventId !in done
  }

  /** Always place the available event with the least key. */
  ghost function Greedy(s: set<Node>, done: set<string>): seq<Node>
    decreases Rest(s, done)
  {
    if Available(s, done) == {} then []
    else
      var n := Least(Available(s, done));
      assert n in Rest(s, done) && n !in Rest(s, done + {n.eventId});
      [n] + Greedy(s, done + {n.eventId})
  }

  ghost function ByKey(s: set<Node>): (r: seq<Node>)
    ensures forall n :: n in r <==> n in s
  {
    if s == {} then [] else [Least(s)] + ByKey(s - {Least(s)})
  }

  ghost function Members(r: seq<Node>): set<Node> { set n | n in r }

  /** The causal order of a set: greedily placed events, then whatever a cycle holds back, by key. */
  ghost function CausalOrder(s: set<Node>): seq<Node> {
    var placed := Greedy(s, {});
    placed + ByKey(s - Members(placed))
  }

  lemma LeastIs(s: set<Node>, all: set<Node>, n: Node)
    requires Proper(all) && s <= all && IsLeast(n, s)
    ensures n == Least(s)
  {
    KeysDiffer(all, n, Least(s));
  }

  // ---------- what the order guarantees ----------

  lemma {:induction false} GreedyMembers(s: set<Node>, done: set<string>)
    ensures forall n | n in Greedy(s, done) :: n in s && n.eventId !in done
    ensures forall i, j | 0 <= i < j < |Greedy(s, done)| :: Greedy(s, done)[i].eventId != Greedy(s, done)[j].eventId
    decreases Rest(s, done)
  {
    hide IsLeast, NodeLe;
    if Available(s, done) != {} {
      var n := Least(Available(s, done));
      assert n in Available(s, done) by { LeastIsMember(Available(s, done)); }
      assert n in Rest(s, done) && n !in Rest(s, done + {n.eventId});
      var rest := Greedy(s, done + {n.eventId});
      GreedyMembers(s, done + {n.eventId});
      assert Greedy(s, done) == [n] + rest && forall m | m in rest :: m.eventId != n.eventId;
      hide *;
      forall i, j | 0 <= i < j < |[n] + rest| ensures ([n] + rest)[i].eventId != ([n] + rest)[j].eventId {
        assert ([n] + rest)[j] == rest[j - 1] && rest[j - 1] in rest;
      }
    }
  }

  lemma {:induction false} ByKeyDistinct(s: set<Node>)
    ensures forall i, j | 0 <= i < j < |ByKey(s)| :: ByKey(s)[i] != ByKey(s)[j]
  {
    if s != {} {
      var n := Least(s);
      var rest := ByKey(s - {n});
      ByKeyDistinct(s - {n});
      assert ByKey(s) == [n] + rest && n !in rest;
      hide *;
      forall i, j | 0 <= i < j < |[n] + rest| ensures ([n] + rest)[i] != ([n] + rest)[j] {
        assert ([n] + rest)[j] == rest[j - 1] && rest[j - 1] in rest;
      }
    }
  }

  /** The order lists every event of the set exactly once. */
  lemma OrderIsPermutation(s: set<Node>)
    ensures Members(CausalOrder(s)) == s
    ensures forall i, j | 0 <= i < j < |CausalOrder(s)| :: CausalOrder(s)[i] != CausalOrder(s)[j]
  {
    var placed := Greedy(s, {});
    var rest := ByKey(s - Members(placed));
    GreedyMembers(s, {});
    ByKeyDistinct(s - Members(placed));
    forall i, j | 0 <= i < j < |placed + rest| ensures (placed + rest)[i] != (placed + rest)[j] {
      if i < |placed| <= j {
        assert placed[i] in Members(placed);
        assert rest[j - |placed|] in rest;
      }
    }
  }

  /** No part of the set supports itself: every part has an event without a parent in that part. */
  ghost predicate Acyclic(s: set<Node>) {
    forall part: set<Node> | part != {} && part <= s :: exists n | n in part :: forall p | p in n.parents :: p !in Ids(part)
  }

  lemma AcyclicAvailable(s: set<Node>, done: set<string>)
    requires Acyclic(s) && Rest(s, done) != {}
    ensures Available(s, done) != {}
  {
    var part := Rest(s, done);
    var n :| n in part && forall p | p in n.parents :: p !in Ids(part);
    forall p | p in n.parents && p in Ids(s) ensures p in done {
      var m :| m in s && m.eventId == p;
      assert p !in done ==> m in part;
    }
    assert n in Available(s, done);
  }

  /** Nothing of an acyclic set is left over. */
  lemma {:induction false} AcyclicPlacesAll(s: set<Node>, done: set<string>)
    requires Acyclic(s)
    ensures forall n | n in s && n.eventId !in done :: n.eventId in Ids(Members(Greedy(s, done)))
    decreases Rest(s, done)
  {
    if Rest(s, done) != {} {
      AcyclicAvailable(s, done);
      var n := Least(Available(s, done));
      assert n in Rest(s, done) && n !in Rest(s, done + {n.eventId});
      AcyclicPlacesAll(s, done + {n.eventId});
      var rest := Greedy(s, done + {n.eventId});
      assert Greedy(s, done) == [n] + rest;
      assert n in Members(Greedy(s, done));
      forall m | m in s && m.eventId !in done ensures m.eventId in Ids(Members(Greedy(s, done))) {
        if m.eventId != n.eventId {
          var k :| k in Members(rest) && k.eventId == m.eventId;
          assert k in Members(Greedy(s, done));
        }
      }
    } else {
      assert forall n | n in s && n.eventId !in done :: n in Rest(s, done);
    }
  }

  /** `p` is placed before position `j`, or was placed already. */
  ghost predicate Before(order: seq<Node>, done: set<string>, p: string, j: nat)
    requires j <= |order|
  {
    p in done || exists i | 0 <= i < j :: order[i].eventId == p
  }

  /** Every parent in the set comes before its child. */
  ghost predicate ParentsFirst(order: seq<Node>, s: set<Node>, done: set<string>) {
    forall j, p | 0 <= j < |order| && p in order[j].parents && p in Ids(s) :: Before(order, done, p, j)
  }

  lemma {:induction false} GreedyParentsFirst(s: set<Node>, done: set<string>)
    ensures ParentsFirst(Greedy(s, done), s, done)
    decreases Rest(s, done)
  {
    if Available(s, done) != {} {
      var n := Least(Available(s, done));
      assert n in Rest(s, done) && n !in Rest(s, done + {n.eventId});
      var rest := Greedy(s, done + {n.eventId});
      var order := Greedy(s, done);
      GreedyParentsFirst(s, done + {n.eventId});
      forall j, p | 0 <= j < |order| && p in order[j].parents && p in Ids(s) ensures Before(order, done, p, j) {
        if j > 0 {
          assert rest[j - 1] == order[j];
          assert Before(rest, done + {n.eventId}, p, j - 1);
          if i :| 0 <= i < j - 1 && rest[i].eventId == p {
            assert order[i + 1].eventId == p;
          } else {
            assert order[0] == n;
          }
        }
      }
    }
  }

  predicate NodeLt(a: Node, b: Node) { PathLt(LayerKey(a), LayerKey(b)) }

  /** A listing of the events not yet placed that puts parents first. */
  ghost predicate LinearExtension(order: seq<Node>, s: set<Node>, done: set<string>) {
    && (forall n :: n in order <==> n in Rest(s, done))
    && (forall i, j | 0 <= i < j < |order| :: order[i].eventId != order[j].eventId)
    && ParentsFirst(order, s, done)
  }

  lemma DropFirst(order: seq<Node>, s: set<Node>, done: set<string>)
    requires LinearExtension(order, s, done) && Proper(s) && |order| > 0
    ensures LinearExtension(order[1..], s, done + {order[0].eventId})
  {
    var rest, now := order[1..], done + {order[0].eventId};
    forall n ensures n in rest <==> n in Rest(s, now) {
      if n in rest {
        var i :| 0 <= i < |rest| && rest[i] == n;
        assert order[i + 1] == n && n in order;
      }
      if n in Rest(s, now) {
        assert n in order;
        var i :| 0 <= i < |order| && order[i] == n;
        assert rest[i - 1] == n;
      }
    }
    forall j, p | 0 <= j < |rest| && p in rest[j].parents && p in Ids(s) ensures Before(rest, now, p, j) {
      assert Before(order, done, p, j + 1);
      if i :| 0 <= i < j + 1 && order[i].eventId == p {
        if i > 0 { assert rest[i - 1].eventId == p; }
      }
    }
  }

  /** Of all the ways to list an acyclic set with parents first, the causal order is the least under the layer key. */
  lemma {:induction false} GreedyIsLeast(s: set<Node>, done: set<string>, order: seq<Node>)
    requires Proper(s) && Acyclic(s) && LinearExtension(order, s, done)
    ensures Greedy(s, done) == order || Lex(NodeLt, Greedy(s, done), order)
    decreases Rest(s, done)
  {
    hide Acyclic, Proper, ParentsFirst, NodeLt, NodeLe;
    if |order| == 0 {
      assert forall n | n in Available(s, done) :: n in Rest(s, done) && n in order;
      assert Available(s, done) == {};
    } else {
      assert order[0] in order;
      AcyclicAvailable(s, done);
      var n := Least(Available(s, done));
      assert n in Rest(s, done) && n !in Rest(s, done + {n.eventId});
      assert n in order;
      FirstIsAvailable(order, s, done);
      if order[0] == n {
        DropFirst(order, s, done);
        GreedyIsLeast(s, done + {n.eventId}, order[1..]);
        assert order == [n] + order[1..];
      } else {
        StrictlyLess(s, n, order[0]);
      }
    }
  }

  lemma FirstIsAvailable(order: seq<Node>, s: set<Node>, done: set<string>)
    requires LinearExtension(order, s, done) && |order| > 0
    ensures order[0] in Available(s, done)
  {
    assert order[0] in order;
    forall p | p in order[0].parents && p in Ids(s) ensures p in done { assert Before(order, done, p, 0); }
  }

  lemma StrictlyLess(s: set<Node>, a: Node, b: Node)
    requires Proper(s) && a in s && b in s && a != b && NodeLe(a, b)
    ensures NodeLt(a, b)
  {
    if LayerKey(a) == LayerKey(b) { KeysDiffer(s, a, b); }
  }

  /** On an acyclic set the causal order is itself such a listing. */
  lemma OrderIsLinearExtension(s: set<Node>)
    requires Proper(s) && Acyclic(s)
    ensures CausalOrder(s) == Greedy(s, {}) && LinearExtension(CausalOrder(s), s, {})
  {
    var placed := Greedy(s, {});
    GreedyMembers(s, {});
    AcyclicPlacesAll(s, {});
    GreedyParentsFirst(s, {});
    forall n | n in s ensures n in placed {
      var k :| k in Members(placed) && k.eventId == n.eventId;
    }
    assert s - Members(placed) == {};
    assert CausalOrder(s) == placed;
  }

  /** The chosen winner of an acyclic set has no child in the set. */
  lemma WinnerHasNoChild(s: set<Node>, n: Node)
    requires Proper(s) && Acyclic(s) && n in s
    ensures |CausalOrder(s)| > 0
    ensures CausalOrder(s)[|CausalOrder(s)| - 1].eventId !in n.parents
  {
    hide Acyclic, Proper, CausalOrder, Members;
    OrderIsLinearExtension(s);
    OrderIsPermutation(s);
    var order := CausalOrder(s);
    assert n in order by { assert n in Members(order); }
    var j :| 0 <= j < |order| && order[j] == n;
    var winner := order[|order| - 1];
    assert winner in order;
    assert winner.eventId in n.parents ==> Before(order, {}, winner.eventId, j);
  }

  /** What a cycle holds back: every event left over has a parent in the set that is left over too, and the
      leftovers are listed by key. */
  lemma LeftoversBlocked(s: set<Node>, n: Node)
    requires Proper(s) && n in s && n !in Greedy(s, {})
    ensures exists m | m in s && m !in Greedy(s, {}) :: m.eventId in n.parents
  {
    var placed := Greedy(s, {});
    GreedyStuck(s, {});
    GreedyMembers(s, {});
    assert n.eventId !in Ids(Members(placed));
    assert n !in Available(s, {} + Ids(Members(placed)));
    var p :| p in n.parents && p in Ids(s) && p !in Ids(Members(placed));
    var m :| m in s && m.eventId == p;
    assert m !in Members(placed);
  }

  lemma {:induction false} GreedyStuck(s: set<Node>, done: set<string>)
    ensures Available(s, done + Ids(Members(Greedy(s, done)))) == {}
    decreases Rest(s, done)
  {
    var placed := Greedy(s, done);
    if Available(s, done) == {} {
      assert done + Ids(Members(placed)) == done;
    } else {
      var n := Least(Available(s, done));
      assert n in Rest(s, done) && n !in Rest(s, done + {n.eventId});
      GreedyStuck(s, done + {n.eventId});
      var rest := Greedy(s, done + {n.eventId});
      assert Members(placed) == {n} + Members(rest);
      assert done + Ids(Members(placed)) == done + {n.eventId} + Ids(Members(rest));
    }
  }

  // ---------- the algorithm ----------

  /** How many of an event's parent entries are in the set and not placed. */
  function Missing(parents: seq<string>, ids: set<string>, done: set<string>): nat {
    if |parents| == 0 then 0
    else Missing(parents[1..], ids, done) + if parents[0] in ids && parents[0] !in done then 1 else 0
  }

  lemma {:induction false} MissingNone(parents: seq<string>, ids: set<string>, done: set<string>)
    ensures Missing(parents, ids, done) == 0 <==> forall p | p in parents && p in ids :: p in done
  {
    if |parents| > 0 {
      MissingNone(parents[1..], ids, done);
      assert parents == [parents[0]] + parents[1..];
    }
  }

  /** Placing a parent takes away its entries. */
  lemma {:induction false} MissingAfter(parents: seq<string>, ids: set<string>, done: set<string>, p: string)
    requires p in ids && p !in done
    ensures Missing(parents, ids, done) == Missing(parents, ids, done + {p}) + multiset(parents)[p]
  {
    if |parents| > 0 {
      MissingAfter(parents[1..], ids, done, p);
      assert parents == [parents[0]] + parents[1..];
    }
  }

  function ChildrenOf(children: map<string, seq<string>>, p: string): seq<string> {
    if p in children then children[p] else []
  }

  /** The edges of one parent list. */
  lemma {:induction false} MissingIsAll(parents: seq<string>, ids: set<string>, i: nat)
    requires i < |parents|
    ensures Missing(parents[..i + 1], ids, {}) == Missing(parents[..i], ids, {}) + if parents[i] in ids then 1 else 0
  {
    if i == 0 {
      assert parents[..1][1..] == [];
    } else {
      assert parents[..i + 1][1..] == parents[1..][..i] && parents[..i][1..] == parents[1..][..i - 1];
      MissingIsAll(parents[1..], ids, i - 1);
    }
  }

  /** The recorded edges from `p` to `c` are as many as the entries of `p` in the part of `c`'s list seen so far. */
  predicate EdgeCount(children: map<string, seq<string>>, seen: map<string, seq<string>>, p: string, c: string)
    requires c in seen
  {
    multiset(ChildrenOf(children, p))[c] == multiset(seen[c])[p]
  }

  /** The graph after the part of the parent lists in `seen`. */
  ghost predicate Edges(indegree: map<string, int>, children: map<string, seq<string>>, seen: map<string, seq<string>>, ids: set<string>) {
    && indegree.Keys == ids && seen.Keys == ids
    && (forall c | c in ids :: indegree[c] == Missing(seen[c], ids, {}))
    && (forall p, c | p in ids && c in ids :: EdgeCount(children, seen, p, c))
    && (forall p, c | c in ChildrenOf(children, p) :: c in ids)
  }

  lemma CountAppended(s: seq<string>, x: string, y: string)
    ensures multiset(s + [x])[y] == multiset(s)[y] + if x == y then 1 else 0
  {}

  lemma EdgeCountAdded(children: map<string, seq<string>>, seen: map<string, seq<string>>, c: string, parent: string, p: string, d: string)
    requires c in seen && d in seen && EdgeCount(children, seen, p, d)
    ensures EdgeCount(children[parent := ChildrenOf(children, parent) + [c]], seen[c := seen[c] + [parent]], p, d)
  {}

  lemma EdgeAdded(indegree: map<string, int>, children: map<string, seq<string>>, seen: map<string, seq<string>>, ids: set<string>,
                  c: string, parent: string)
    requires Edges(indegree, children, seen, ids) && c in ids && parent in ids
    requires Missing(seen[c] + [parent], ids, {}) == Missing(seen[c], ids, {}) + 1
    ensures Edges(indegree[c := indegree[c] + 1], children[parent := ChildrenOf(children, parent) + [c]], seen[c := seen[c] + [parent]], ids)
  {
    hide Missing;
    var next := children[parent := ChildrenOf(children, parent) + [c]];
    var now := seen[c := seen[c] + [parent]];
    forall p, d | p in ids && d in ids ensures EdgeCount(next, now, p, d) {
      EdgeCountAdded(children, seen, c, parent, p, d);
    }
    hide EdgeCount;
    forall p, d | d in ChildrenOf(next, p) ensures d in ids {
      if p != parent { assert d in ChildrenOf(children, p); }
    }
  }

  lemma NoEdgeAdded(indegree: map<string, int>, children: map<string, seq<string>>, seen: map<string, seq<string>>, ids: set<string>,
                    c: string, parent: string)
    requires Edges(indegree, children, seen, ids) && c in ids && parent !in ids
    requires Missing(seen[c] + [parent], ids, {}) == Missing(seen[c], ids, {})
    ensures Edges(indegree, children, seen[c := seen[c] + [parent]], ids)
  {
    hide Missing;
    var now := seen[c := seen[c] + [parent]];
    forall p, d | p in ids && d in ids ensures EdgeCount(children, now, p, d) {
      assert EdgeCount(children, seen, p, d);
      CountAppended(seen[c], parent, p);
    }
  }

  /** The inner loop: one event's parent list. */
  method AddEdges(child: Node, ids: set<string>, before: map<string, int>, prior: map<string, seq<string>>, ghost seen: map<string, seq<string>>)
    returns (indegree: map<string, int>, children: map<string, seq<string>>)
    requires Edges(before, prior, seen, ids) && child.eventId in ids && seen[child.eventId] == []
    ensures Edges(indegree, children, seen[child.eventId := child.parents], ids)
  {
    hide Missing, EdgeCount;
    indegree, children := before, prior;
    ghost var id := child.eventId;
    assert seen[id := child.parents[..0]] == seen;
    for j := 0 to |child.parents|
      invariant Edges(indegree, children, seen[id := child.parents[..j]], ids)
    {
      var parent := child.parents[j];
      ghost var now := seen[id := child.parents[..j]];
      MissingIsAll(child.parents, ids, j);
      assert child.parents[..j + 1] == child.parents[..j] + [parent];
      assert seen[id := child.parents[..j + 1]] == now[id := now[id] + [parent]];
      if parent in ids {
        EdgeAdded(indegree, children, now, ids, id, parent);
        indegree := indegree[child.eventId := indegree[child.eventId] + 1];
        children := children[parent := ChildrenOf(children, parent) + [child.eventId]];
      } else {
        NoEdgeAdded(indegree, children, now, ids, id, parent);
      }
    }
    assert child.parents[..|child.parents|] == child.parents;
  }

  lemma NoEdges(ids: set<string>)
    ensures Edges(map id | id in ids :: 0, map[], map id | id in ids :: [], ids)
  {}

  ghost predicate DistinctIds(nodes: seq<Node>) {
    forall i, j | 0 <= i < j < |nodes| :: nodes[i].eventId != nodes[j].eventId
  }

  /** The parent lists of the first `i` events have been seen. */
  ghost predicate SeenUpTo(nodes: seq<Node>, seen: map<string, seq<string>>, i: nat) {
    && seen.Keys == Ids(Members(nodes))
    && forall k | 0 <= k < |nodes| :: nodes[k].eventId in seen && seen[nodes[k].eventId] == if k < i then nodes[k].parents else []
  }

  lemma SeenNext(nodes: seq<Node>, seen: map<string, seq<string>>, i: nat)
    requires DistinctIds(nodes) && i < |nodes| && SeenUpTo(nodes, seen, i)
    ensures nodes[i].eventId in seen && seen[nodes[i].eventId] == []
    ensures SeenUpTo(nodes, seen[nodes[i].eventId := nodes[i].parents], i + 1)
  {}

  lemma SeenNothing(nodes: seq<Node>)
    ensures SeenUpTo(nodes, map id | id in Ids(Members(nodes)) :: [], 0)
  {}

  method BuildGraph(nodes: seq<Node>) returns (indegree: map<string, int>, children: map<string, seq<string>>)
    requires DistinctIds(nodes)
    ensures Edges(indegree, children, ParentsById(nodes), Ids(Members(nodes)))
  {
    hide Edges, ParentsById, SeenUpTo, Ids, Members, DistinctIds;
    var known := IdsOf(nodes);
    NoEdges(known);
    SeenNothing(nodes);
    indegree := map id | id in known :: 0;
    children := map[];
    ghost var seen: map<string, seq<string>> := map id | id in known :: [];
    for i := 0 to |nodes|
      invariant Edges(indegree, children, seen, known) && SeenUpTo(nodes, seen, i)
    {
      SeenNext(nodes, seen, i);
      KnownId(nodes, i);
      indegree, children := AddEdges(nodes[i], known, indegree, children, seen);
      seen := seen[nodes[i].eventId := nodes[i].parents];
    }
    SeenIsParents(nodes, seen);
  }

  function IdsOf(nodes: seq<Node>): (r: set<string>)
    ensures r == Ids(Members(nodes))
  {
    set n | n in nodes :: n.eventId
  }

  lemma KnownId(nodes: seq<Node>, i: nat)
    requires i < |nodes|
    ensures nodes[i].eventId in Ids(Members(nodes))
  {}

  function ParentsById(nodes: seq<Node>): (m: map<string, seq<string>>)
    requires DistinctIds(nodes)
    ensures m.Keys == Ids(Members(nodes))
    ensures forall n | n in nodes :: n.eventId in m && m[n.eventId] == n.parents
  {
    assert forall a, b | a in nodes && b in nodes && a.eventId == b.eventId :: a == b;
    map n | n in nodes :: n.eventId := n.parents
  }

  lemma SeenIsParents(nodes: seq<Node>, seen: map<string, seq<string>>)
    requires DistinctIds(nodes) && SeenUpTo(nodes, seen, |nodes|)
    ensures seen == ParentsById(nodes)
  {}

  /** The counters agree with the events placed so far. */
  ghost predicate Counts(indegree: map<string, int>, all: set<Node>, done: set<string>) {
    forall n | n in all :: n.eventId in indegree && indegree[n.eventId] == Missing(n.parents, Ids(all), done)
  }

  /** The recorded children of `p` are the events that name it, once per entry. */
  ghost predicate IsGraph(children: map<string, seq<string>>, all: set<Node>) {
    && (forall p, c | p in Ids(all) && c in all :: multiset(ChildrenOf(children, p))[c.eventId] == multiset(c.parents)[p])
    && (forall p, id | id in ChildrenOf(children, p) :: id in Ids(all))
  }

  /** What is placed is closed under parents. */
  ghost predicate Closed(all: set<Node>, done: set<string>) {
    forall n | n in all && n.eventId in done :: Missing(n.parents, Ids(all), done) == 0
  }

  ghost predicate ListsAvailable(ready: seq<Node>, all: set<Node>, done: set<string>) {
    && (forall i, j | 0 <= i < j < |ready| :: ready[i] != ready[j])
    && (forall n :: n in ready <==> n in Available(all, done))
  }

  lemma AvailableByCount(all: set<Node>, done: set<string>, n: Node)
    ensures n in Available(all, done) <==> n in all && n.eventId !in done && Missing(n.parents, Ids(all), done) == 0
  {
    MissingNone(n.parents, Ids(all), done);
  }

  lemma GraphFromEdges(indegree: map<string, int>, children: map<string, seq<string>>, nodes: seq<Node>)
    requires DistinctIds(nodes) && Edges(indegree, children, ParentsById(nodes), Ids(Members(nodes)))
    ensures Counts(indegree, Members(nodes), {}) && IsGraph(children, Members(nodes))
  {
    var all := Members(nodes);
    forall c | c in all
      ensures c.eventId in indegree && indegree[c.eventId] == Missing(c.parents, Ids(all), {})
      ensures forall p | p in Ids(all) :: multiset(ChildrenOf(children, p))[c.eventId] == multiset(c.parents)[p]
    {
      assert c.eventId in Ids(all) && ParentsById(nodes)[c.eventId] == c.parents;
      assert forall p | p in Ids(all) :: EdgeCount(children, ParentsById(nodes), p, c.eventId);
    }
  }

  /** The queue while a placed event's children are being released: entries of `cs` have been taken off. */
  ghost predicate Releasing(indegree: map<string, int>, ready: seq<Node>, waiting: seq<Node>, cs: seq<string>, all: set<Node>, done: set<string>) {
    && (forall c | c in all :: c.eventId in indegree && indegree[c.eventId] == Missing(c.parents, Ids(all), done) - multiset(cs)[c.eventId])
    && (forall i, j | 0 <= i < j < |ready| :: ready[i] != ready[j])
    && (forall c :: c in ready <==> c in waiting || (c in all && c.eventId in cs && indegree[c.eventId] == 0))
  }

  /** One entry of a released child. */
  lemma ReleaseOne(indegree: map<string, int>, ready: seq<Node>, waiting: seq<Node>, cs: seq<string>, all: set<Node>, done: set<string>, c: Node)
    requires Proper(all) && Releasing(indegree, ready, waiting, cs, all, done) && c in all && c !in waiting
    requires indegree[c.eventId] > 0
    ensures var next := indegree[c.eventId := indegree[c.eventId] - 1];
            Releasing(next, if next[c.eventId] == 0 then ready + [c] else ready, waiting, cs + [c.eventId], all, done)
  {
    hide Missing, Ids;
    var next := indegree[c.eventId := indegree[c.eventId] - 1];
    var queue := if next[c.eventId] == 0 then ready + [c] else ready;
    forall d | d in all ensures next[d.eventId] == Missing(d.parents, Ids(all), done) - multiset(cs + [c.eventId])[d.eventId] {
      CountAppended(cs, c.eventId, d.eventId);
    }
    forall d ensures d in queue <==> d in waiting || (d in all && d.eventId in cs + [c.eventId] && next[d.eventId] == 0) {
      assert d in queue <==> d in ready || (d == c && next[c.eventId] == 0);
      assert d.eventId in cs + [c.eventId] <==> d.eventId in cs || d.eventId == c.eventId;
    }
  }

  /** A child of the event just placed was neither placed nor available. */
  lemma ChildWaits(children: map<string, seq<string>>, all: set<Node>, done: set<string>, node: Node, c: Node)
    requires Proper(all) && IsGraph(children, all) && Closed(all, done) && node in Available(all, done)
    requires c in all && c.eventId in ChildrenOf(children, node.eventId)
    ensures c !in Available(all, done) && c.eventId !in done + {node.eventId}
    ensures Missing(c.parents, Ids(all), done) >= multiset(ChildrenOf(children, node.eventId))[c.eventId]
  {
    assert node.eventId in Ids(all);
    assert multiset(c.parents)[node.eventId] > 0;
    assert node.eventId in c.parents;
    MissingAfter(c.parents, Ids(all), done, node.eventId);
    AvailableByCount(all, done, c);
  }

  lemma PrefixCount(s: seq<string>, i: nat, x: string)
    requires i < |s|
    ensures multiset(s[..i])[s[i]] < multiset(s)[s[i]]
  {
    assert s == s[..i] + [s[i]] + s[i + 1..];
  }

  lemma StartReleasing(node: Node, indegree: map<string, int>, waiting: seq<Node>, all: set<Node>, done: set<string>)
    requires Counts(indegree, all, done) && ListsAvailable([node] + waiting, all, done)
    ensures Releasing(indegree, waiting, waiting, [], all, done)
  {
    var queue := [node] + waiting;
    forall i, j | 0 <= i < j < |waiting| ensures waiting[i] != waiting[j] {
      assert queue[i + 1] == waiting[i] && queue[j + 1] == waiting[j];
    }
  }

  lemma NodeNotWaiting(node: Node, waiting: seq<Node>, all: set<Node>, done: set<string>)
    requires ListsAvailable([node] + waiting, all, done)
    ensures node !in waiting
  {
    var queue := [node] + waiting;
    forall i | 0 <= i < |waiting| ensures waiting[i] != node {
      assert queue[0] == node && queue[i + 1] == waiting[i];
    }
  }

  lemma NotWaiting(node: Node, waiting: seq<Node>, all: set<Node>, done: set<string>, c: Node)
    requires ListsAvailable([node] + waiting, all, done) && c !in Available(all, done)
    ensures c !in waiting
  {}

  lemma ChildNode(children: map<string, seq<string>>, p: string, id: string, all: set<Node>) returns (c: Node)
    requires IsGraph(children, all) && id in ChildrenOf(children, p)
    ensures c in all && c.eventId == id
  {
    assert id in Ids(all);
    c :| c in all && c.eventId == id;
  }

  lemma CounterNow(counters: map<string, int>, ready: seq<Node>, waiting: seq<Node>, cs: seq<string>, all: set<Node>, done: set<string>, c: Node)
    requires Releasing(counters, ready, waiting, cs, all, done) && c in all
    ensures c.eventId in counters && counters[c.eventId] == Missing(c.parents, Ids(all), done) - multiset(cs)[c.eventId]
  {}

  lemma ReleaseStep(node: Node, counters: map<string, int>, ready: seq<Node>, waiting: seq<Node>, children: map<string, seq<string>>, i: nat,
                    all: set<Node>, done: set<string>) returns (c: Node)
    requires Proper(all) && IsGraph(children, all) && Closed(all, done)
    requires node in Available(all, done) && ListsAvailable([node] + waiting, all, done)
    requires i < |ChildrenOf(children, node.eventId)|
    requires Releasing(counters, ready, waiting, ChildrenOf(children, node.eventId)[..i], all, done)
    ensures var childId := ChildrenOf(children, node.eventId)[i];
            && c in all && c.eventId == childId && childId in counters && childId !in done + {node.eventId}
            && var next := counters[childId := counters[childId] - 1];
               Releasing(next, if next[childId] == 0 then ready + [c] else ready, waiting, ChildrenOf(children, node.eventId)[..i + 1], all, done)
  {
    hide Missing, Available, Closed, ListsAvailable, Releasing, IsGraph, Proper;
    var cs := ChildrenOf(children, node.eventId);
    assert cs[i] in cs;
    c := ChildNode(children, node.eventId, cs[i], all);
    ChildWaits(children, all, done, node, c);
    PrefixCount(cs, i, cs[i]);
    NotWaiting(node, waiting, all, done, c);
    CounterNow(counters, ready, waiting, cs[..i], all, done, c);
    ReleaseOne(counters, ready, waiting, cs[..i], all, done, c);
    assert cs[..i + 1] == cs[..i] + [cs[i]];
  }

  method ReleaseChildren(node: Node, indegree: map<string, int>, children: map<string, seq<string>>, byId: map<string, Node>, waiting: seq<Node>,
                         seen: set<string>, ghost all: set<Node>, ghost done: set<string>)
    returns (counters: map<string, int>, ready: seq<Node>, changed: bool)
    requires Proper(all) && Counts(indegree, all, done) && IsGraph(children, all) && Closed(all, done)
    requires node in Available(all, done) && ListsAvailable([node] + waiting, all, done) && seen == done + {node.eventId}
    requires forall n | n in all :: n.eventId in byId && byId[n.eventId] == n
    ensures Releasing(counters, ready, waiting, ChildrenOf(children, node.eventId), all, done)
    ensures !changed ==> ready == waiting
  {
    hide Missing, Available, Closed, ListsAvailable, Releasing, IsGraph, Counts, Proper;
    counters, ready, changed := indegree, waiting, false;
    var cs := ChildrenOf(children, node.eventId);
    StartReleasing(node, indegree, waiting, all, done);
    for i := 0 to |cs|
      invariant Releasing(counters, ready, waiting, cs[..i], all, done)
      invariant !changed ==> ready == waiting
    {
      var childId := cs[i];
      ghost var c := ReleaseStep(node, counters, ready, waiting, children, i, all, done);
      counters := counters[childId := counters[childId] - 1];
      if counters[childId] == 0 && childId !in seen {
        ready := ready + [byId[childId]];
        changed := true;
      }
    }
    assert cs[..|cs|] == cs;
  }

  /** Afterwards the queue holds what the enlarged set makes available. */
  lemma Released(counters: map<string, int>, ready: seq<Node>, waiting: seq<Node>, children: map<string, seq<string>>,
                 all: set<Node>, done: set<string>, node: Node)
    requires Proper(all) && IsGraph(children, all) && Closed(all, done) && node in Available(all, done)
    requires Releasing(counters, ready, waiting, ChildrenOf(children, node.eventId), all, done)
    requires ListsAvailable([node] + waiting, all, done)
    ensures Counts(counters, all, done + {node.eventId}) && ListsAvailable(ready, all, done + {node.eventId})
    ensures Closed(all, done + {node.eventId})
  {
    var now := done + {node.eventId};
    assert node.eventId in Ids(all);
    forall c | c in all
      ensures counters[c.eventId] == Missing(c.parents, Ids(all), now) <= Missing(c.parents, Ids(all), done)
      ensures c.eventId in ChildrenOf(children, node.eventId) <==> multiset(c.parents)[node.eventId] > 0
    {
      MissingAfter(c.parents, Ids(all), done, node.eventId);
    }
    AvailableByCount(all, done, node);
    NodeNotWaiting(node, waiting, all, done);
    forall c ensures c in ready <==> c in Available(all, now) {
      AvailableByCount(all, done, c);
      AvailableByCount(all, now, c);
      assert c in waiting <==> c in [node] + waiting && c != node;
      if c in all && c.eventId in ChildrenOf(children, node.eventId) { ChildWaits(children, all, done, node, c); }
    }
  }

  /** The state of the main loop: `ready` holds the available events in key order. */
  ghost predicate Sorting(output: seq<Node>, ready: seq<Node>, indegree: map<string, int>, children: map<string, seq<string>>, all: set<Node>) {
    var done := Ids(Members(output));
    && output + Greedy(all, done) == Greedy(all, {})
    && Counts(indegree, all, done) && IsGraph(children, all) && Closed(all, done)
    && ListsAvailable(ready, all, done) && Sorted(NodeLe, ready)
  }

  /** The first of a listing in key order is the least. */
  lemma FirstIsLeast(listed: seq<Node>, s: set<Node>)
    requires |listed| > 0 && Sorted(NodeLe, listed) && forall n :: n in listed <==> n in s
    ensures IsLeast(listed[0], s)
  {}

  /** The head of the queue is the event the greedy order places next. */
  lemma HeadIsNext(output: seq<Node>, ready: seq<Node>, indegree: map<string, int>, children: map<string, seq<string>>, all: set<Node>)
    requires Proper(all) && Sorting(output, ready, indegree, children, all) && |ready| > 0
    ensures var done := Ids(Members(output));
            && ready[0] in Available(all, done) && ready[0].eventId !in done
            && ListsAvailable([ready[0]] + ready[1..], all, done)
            && output + [ready[0]] + Greedy(all, done + {ready[0].eventId}) == Greedy(all, {})
            && Ids(Members(output + [ready[0]])) == done + {ready[0].eventId}
  {
    hide Counts, IsGraph, Closed, NodeLe, Proper;
    var done := Ids(Members(output));
    var node := ready[0];
    assert [node] + ready[1..] == ready && node in ready;
    FirstIsLeast(ready, Available(all, done));
    LeastIs(Available(all, done), all, node);
    assert Greedy(all, done) == [node] + Greedy(all, done + {node.eventId});
    assert output + ([node] + Greedy(all, done + {node.eventId})) == output + [node] + Greedy(all, done + {node.eventId});
    assert Members(output + [node]) == Members(output) + {node};
  }

  lemma SortedAgain(ready: seq<Node>, all: set<Node>, done: set<string>)
    requires ListsAvailable(ready, all, done)
    ensures ListsAvailable(SortBy(NodeLe, ready), all, done) && Sorted(NodeLe, SortBy(NodeLe, ready))
  {
    NodeLePreorder();
    SortBySorted(NodeLe, ready);
    SameMembers(ready, SortBy(NodeLe, ready));
    DistinctReordered(ready, SortBy(NodeLe, ready));
  }

  /** A listing in key order is the one `ByKey` gives. */
  lemma {:induction false} SortedIsByKey(listed: seq<Node>, s: set<Node>, all: set<Node>)
    requires Proper(all) && s <= all && Sorted(NodeLe, listed) && (forall n :: n in listed <==> n in s)
    requires forall i, j | 0 <= i < j < |listed| :: listed[i] != listed[j]
    ensures listed == ByKey(s)
  {
    hide NodeLe, Proper;
    if |listed| == 0 {
      assert s == {};
    } else {
      FirstIsLeast(listed, s);
      LeastIs(s, all, listed[0]);
      TailMembers(listed, s);
      SortedIsByKey(listed[1..], s - {listed[0]}, all);
    }
  }

  lemma TailMembers(listed: seq<Node>, s: set<Node>)
    requires |listed| > 0 && forall n :: n in listed <==> n in s
    requires forall i, j | 0 <= i < j < |listed| :: listed[i] != listed[j]
    ensures forall n :: n in listed[1..] <==> n in s - {listed[0]}
  {}

  /** The events not placed, in input order. */
  function Unplaced(nodes: seq<Node>, seen: set<string>): (r: seq<Node>)
    ensures forall n :: n in r <==> n in nodes && n.eventId !in seen
  {
    if |nodes| == 0 then []
    else
      assert nodes == [nodes[0]] + nodes[1..];
      (if nodes[0].eventId in seen then [] else [nodes[0]]) + Unplaced(nodes[1..], seen)
  }

  lemma {:induction false} UnplacedDistinct(nodes: seq<Node>, seen: set<string>)
    requires forall i, j | 0 <= i < j < |nodes| :: nodes[i] != nodes[j]
    ensures forall i, j | 0 <= i < j < |Unplaced(nodes, seen)| :: Unplaced(nodes, seen)[i] != Unplaced(nodes, seen)[j]
    ensures |Unplaced(nodes, seen)| <= |nodes|
  {
    if |nodes| > 0 {
      UnplacedDistinct(nodes[1..], seen);
      assert nodes[0] !in nodes[1..];
      assert nodes[0] !in Unplaced(nodes[1..], seen);
    }
  }

  /** The leftovers appended at the end, if any, complete the causal order. */
  lemma Completes(nodes: seq<Node>, output: seq<Node>)
    requires DistinctIds(nodes) && Proper(Members(nodes)) && output == Greedy(Members(nodes), {})
    ensures output + SortBy(NodeLe, Unplaced(nodes, Ids(Members(output)))) == CausalOrder(Members(nodes))
    ensures |output| + |Unplaced(nodes, Ids(Members(output)))| == |nodes|
  {
    var all, seen := Members(nodes), Ids(Members(output));
    var left := Unplaced(nodes, seen);
    assert forall i, j | 0 <= i < j < |nodes| :: nodes[i] != nodes[j];
    UnplacedDistinct(nodes, seen);
    GreedyMembers(all, {});
    LeftIsRest(nodes, output);
    NodeLePreorder();
    SortBySorted(NodeLe, left);
    SameMembers(left, SortBy(NodeLe, left));
    DistinctReordered(left, SortBy(NodeLe, left));
    SortedIsByKey(SortBy(NodeLe, left), all - Members(output), all);
    OrderIsPermutation(all);
    SameLength(nodes, CausalOrder(all));
  }

  lemma LeftIsRest(nodes: seq<Node>, output: seq<Node>)
    requires Proper(Members(nodes)) && forall n | n in output :: n in Members(nodes)
    ensures forall n :: n in Unplaced(nodes, Ids(Members(output))) <==> n in Members(nodes) - Members(output)
  {}

  lemma {:induction false} SameLength(s: seq<Node>, t: seq<Node>)
    requires Members(s) == Members(t)
    requires forall i, j | 0 <= i < j < |s| :: s[i] != s[j]
    requires forall i, j | 0 <= i < j < |t| :: t[i] != t[j]
    ensures |s| == |t|
  {
    MembersSize(s);
    MembersSize(t);
  }

  lemma {:induction false} MembersSize(s: seq<Node>)
    requires forall i, j | 0 <= i < j < |s| :: s[i] != s[j]
    ensures |Members(s)| == |s|
  {
    if |s| > 0 {
      MembersSize(s[1..]);
      assert s == [s[0]] + s[1..];
      assert Members(s) == {s[0]} + Members(s[1..]);
      assert s[0] !in s[1..];
    }
  }

  lemma SortingStarts(nodes: seq<Node>, indegree: map<string, int>, children: map<string, seq<string>>)
    requires DistinctIds(nodes) && Edges(indegree, children, ParentsById(nodes), Ids(Members(nodes)))
    ensures Sorting([], SortBy(NodeLe, Roots(nodes, indegree)), indegree, children, Members(nodes))
  {
    hide Counts, IsGraph, Available, Missing, Edges, ParentsById, NodeLe, Greedy, ListsAvailable, SortBy, Roots;
    var all := Members(nodes);
    GraphFromEdges(indegree, children, nodes);
    NothingPlaced();
    assert [] + Greedy(all, {}) == Greedy(all, {});
    RootsAvailable(nodes, indegree);
    SortedAgain(Roots(nodes, indegree), all, {});
  }

  lemma RootsAvailable(nodes: seq<Node>, indegree: map<string, int>)
    requires DistinctIds(nodes) && Counts(indegree, Members(nodes), {})
    ensures ListsAvailable(Roots(nodes, indegree), Members(nodes), {})
  {
    hide Available, Missing, Roots;
    forall n ensures n in Roots(nodes, indegree) <==> n in Available(Members(nodes), {}) {
      AvailableByCount(Members(nodes), {}, n);
    }
    assert forall i, j | 0 <= i < j < |nodes| :: nodes[i] != nodes[j];
    RootsDistinct(nodes, indegree);
  }

  /** The events without a parent in the set, in input order. */
  function Roots(nodes: seq<Node>, indegree: map<string, int>): (r: seq<Node>)
    ensures forall n :: n in r <==> n in nodes && n.eventId in indegree && indegree[n.eventId] == 0
  {
    if |nodes| == 0 then []
    else
      assert nodes == [nodes[0]] + nodes[1..];
      (if nodes[0].eventId in indegree && indegree[nodes[0].eventId] == 0 then [nodes[0]] else []) + Roots(nodes[1..], indegree)
  }

  lemma {:induction false} RootsDistinct(nodes: seq<Node>, indegree: map<string, int>)
    requires forall i, j | 0 <= i < j < |nodes| :: nodes[i] != nodes[j]
    ensures forall i, j | 0 <= i < j < |Roots(nodes, indegree)| :: Roots(nodes, indegree)[i] != Roots(nodes, indegree)[j]
  {
    if |nodes| > 0 {
      RootsDistinct(nodes[1..], indegree);
      assert nodes[0] !in nodes[1..];
      assert nodes[0] !in Roots(nodes[1..], indegree);
    }
  }

  function ById(nodes: seq<Node>): (m: map<string, Node>)
    requires DistinctIds(nodes)
    ensures forall n | n in Members(nodes) :: n.eventId in m && m[n.eventId] == n
  {
    assert forall a, b | a in nodes && b in nodes && a.eventId == b.eventId :: a == b;
    map n | n in nodes :: n.eventId := n
  }

  lemma NothingPlaced()
    ensures Ids(Members([])) == {}
  {}

  /** `topoSortKnowledgeEventsV1`: the result depends on the set of events only, not on their order. */
  method TopoSortKnowledgeEventsV1(nodes: seq<Node>) returns (output: seq<Node>)
    requires DistinctIds(nodes) && Proper(Members(nodes))
    ensures output == CausalOrder(Members(nodes))
  {
    hide *;
    ghost var all := Members(nodes);
    var byId := ById(nodes);
    var indegree, children := BuildGraph(nodes);
    var ready := SortBy(NodeLe, Roots(nodes, indegree));
    SortingStarts(nodes, indegree, children);
    output := [];
    var seen: set<string> := {};
    NothingPlaced();
    while |ready| > 0
      invariant Sorting(output, ready, indegree, children, all) && seen == Ids(Members(output))
      decreases |Rest(all, seen)|
    {
      var node := ready[0];
      ghost var done := seen;
      HeadIsNext(output, ready, indegree, children, all);
      RestShrinks(all, done, node);
      seen := seen + {node.eventId};
      assert [node] + ready[1..] == ready;
      var queue;
      indegree, queue := PlaceNode(node, ready[1..], indegree, children, byId, seen, output, all);
      output := output + [node];
      ready := queue;
    }
    Finished(output, ready, indegree, children, all);
    Completes(nodes, output);
    if |output| < |nodes| {
      output := output + SortBy(NodeLe, Unplaced(nodes, seen));
    } else {
      assert Unplaced(nodes, seen) == [];
      assert output + [] == output;
    }
  }

  lemma Finished(output: seq<Node>, ready: seq<Node>, indegree: map<string, int>, children: map<string, seq<string>>, all: set<Node>)
    requires Sorting(output, ready, indegree, children, all) && |ready| == 0
    ensures output == Greedy(all, {})
  {}

  lemma RestShrinks(all: set<Node>, done: set<string>, node: Node)
    requires node in Available(all, done)
    ensures |Rest(all, done + {node.eventId})| < |Rest(all, done)|
  {
    assert node in Rest(all, done) && node !in Rest(all, done + {node.eventId});
    assert Rest(all, done + {node.eventId}) <= Rest(all, done);
    Smaller(Rest(all, done + {node.eventId}), Rest(all, done));
  }

  lemma {:induction false} Smaller(a: set<Node>, b: set<Node>)
    requires a < b
    ensures |a| < |b|
  {
    var x :| x in b && x !in a;
    if y :| y in a {
      Smaller(a - {y}, b - {y});
    } else {
      assert a == {};
    }
  }

  /** The body of the main loop after an event was taken off the queue. */
  method PlaceNode(node: Node, waiting: seq<Node>, indegree: map<string, int>, children: map<string, seq<string>>, byId: map<string, Node>,
                   seen: set<string>, ghost output: seq<Node>, ghost all: set<Node>)
    returns (counters: map<string, int>, ready: seq<Node>)
    requires Proper(all) && Sorting(output, [node] + waiting, indegree, children, all)
    requires seen == Ids(Members(output)) + {node.eventId}
    requires forall n | n in all :: n.eventId in byId && byId[n.eventId] == n
    ensures Sorting(output + [node], ready, counters, children, all)
  {
    hide Counts, IsGraph, Closed, ListsAvailable, Available, Proper, Releasing, Greedy, Missing;
    ghost var done := Ids(Members(output));
    HeadIsNext(output, [node] + waiting, indegree, children, all);
    assert ([node] + waiting)[1..] == waiting;
    var changed;
    counters, ready, changed := ReleaseChildren(node, indegree, children, byId, waiting, seen, all, done);
    Released(counters, ready, waiting, children, all, done, node);
    if changed {
      SortedAgain(ready, all, done + {node.eventId});
      ready := SortBy(NodeLe, ready);
    } else {
      TailSorted(node, waiting);
    }
  }

  lemma TailSorted(node: Node, waiting: seq<Node>)
    requires Sorted(NodeLe, [node] + waiting)
    ensures Sorted(NodeLe, waiting)
  {
    var queue := [node] + waiting;
    forall i, j | 0 <= i < j < |waiting| ensures NodeLe(waiting[i], waiting[j]) {
      assert queue[i + 1] == waiting[i] && queue[j + 1] == waiting[j];
    }
  }
}
