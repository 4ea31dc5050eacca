/**
 * Submission-status annotations and the privacy-preserving merge that
 * `challengeutils.utils` performs on them (`_switch_annotation_permission`
 * and `update_single_submission_status`). The implementation file is not
 * part of this model; the behaviour here is the one its tests fix.
 *
 * A status keeps its annotations in three typed lists (`stringAnnos`,
 * `longAnnos`, `doubleAnnos`), each entry a key, a value and an `isPrivate`
 * flag. The merge reads the existing entries into a private and a public
 * dict, refuses to move a key from one to the other unless forced, adds the
 * new pairs and writes both dicts back as typed lists, private entries first.
 */
module Annotations {
  import opened Wrappers
  import opened Dicts
  import Seqs
  import Text

  datatype Value = Str(s: string) | Long(n: int) | Double(x: real)

  datatype Kind = StringKind | LongKind | DoubleKind

  /** The list an annotation value is filed under. */
  function KindOf(v: Value): Kind {
    match v
    case Str(_) => StringKind
    case Long(_) => LongKind
    case Double(_) => DoubleKind
  }

  datatype Entry = Entry(key: string, value: Value, isPrivate: bool)

  /** The `annotations` of a status; an absent list is the empty list. */
  datatype StatusAnnotations = StatusAnnotations(
    stringAnnos: seq<Entry>, longAnnos: seq<Entry>, doubleAnnos: seq<Entry>)
  {
    /** The entries of all three lists, in the order the merge reads them. */
    function All(): seq<Entry> {
      stringAnnos + longAnnos + doubleAnnos
    }

    function Bucket(k: Kind): seq<Entry> {
      match k
      case StringKind => stringAnnos
      case LongKind => longAnnos
      case DoubleKind => doubleAnnos
    }
  }

  const NoAnnotations := StatusAnnotations([], [], [])

  /** A plain annotation dict such as `{"FAILURE_REASON": ""}`. */
  type AnnotationDict = Dict<string, Value>

  /** Every entry sits in the list of its value's type. */
  ghost predicate Typed(a: StatusAnnotations) {
    forall k: Kind, e :: e in a.Bucket(k) ==> KindOf(e.value) == k
  }

  /** No key is annotated twice, whatever its type or privacy. */
  ghost predicate UniqueKeys(s: seq<Entry>) {
    forall e, f :: e in s && f in s && e.key == f.key ==> e == f
  }

  ghost predicate WellFormed(a: StatusAnnotations) {
    Typed(a) && UniqueKeys(a.All())
  }

  // ---------------------------------------------------------------------
  // Conversions between dicts and typed lists

  /** The entries of `d` whose value has type `k`, flagged `isPrivate`. */
  function OfKind(d: AnnotationDict, k: Kind, isPrivate: bool): (r: seq<Entry>)
    ensures forall e :: e in r ==> KindOf(e.value) == k
  {
    if d == [] then []
    else (if KindOf(d[0].1) == k then [Entry(d[0].0, d[0].1, isPrivate)] else [])
         + OfKind(d[1..], k, isPrivate)
  }

  /** `to_submission_status_annotations(d, is_private)`. */
  function ToStatusAnnotations(d: AnnotationDict, isPrivate: bool): (r: StatusAnnotations)
    ensures Typed(r)
  {
    StatusAnnotations(OfKind(d, StringKind, isPrivate), OfKind(d, LongKind, isPrivate),
                      OfKind(d, DoubleKind, isPrivate))
  }

  /** The key/value pairs of the entries flagged `isPrivate`, in order. */
  function Pairs(s: seq<Entry>, isPrivate: bool): AnnotationDict {
    if s == [] then []
    else (if s[0].isPrivate == isPrivate then [(s[0].key, s[0].value)] else [])
         + Pairs(s[1..], isPrivate)
  }

  /**
   * The dict comprehension that reads the private (or public) entries of
   * all three lists back into one dict.
   */
  function Collect(a: StatusAnnotations, isPrivate: bool): AnnotationDict {
    FromPairs(Pairs(a.All(), isPrivate))
  }

  /** Entries as they are requested: what an addition asks to be annotated. */
  function AsEntries(d: AnnotationDict, isPrivate: bool): seq<Entry> {
    if d == [] then [] else [Entry(d[0].0, d[0].1, isPrivate)] + AsEntries(d[1..], isPrivate)
  }

  /** Per-list concatenation, private entries first as the merge writes them. */
  function Merge(priv: StatusAnnotations, pub: StatusAnnotations): (r: StatusAnnotations)
    ensures Typed(priv) && Typed(pub) ==> Typed(r)
  {
    var r := StatusAnnotations(priv.stringAnnos + pub.stringAnnos, priv.longAnnos + pub.longAnnos,
                               priv.doubleAnnos + pub.doubleAnnos);
    assert forall k: Kind :: r.Bucket(k) == priv.Bucket(k) + pub.Bucket(k);
    r
  }

  // ---------------------------------------------------------------------
  // The privacy check

  /** `[key for key in add if key in existing]`. */
  function Clashes(add: AnnotationDict, existing: AnnotationDict): (r: seq<string>)
    ensures forall k :: k in r <==> k in Keys(add) && k in Keys(existing)
  {
    if add == [] then []
    else (if add[0].0 in Keys(existing) then [add[0].0] else []) + Clashes(add[1..], existing)
  }

  const AclPrefix := "You are trying to change the ACL of these annotation key(s): "
  const AclSuffix := ". Either change the annotation key or specify force_change_annotation_acl=True"

  /** The ValueError message naming the keys whose privacy would flip. */
  function AclMessage(keys: seq<string>): string {
    AclPrefix + Text.Join(keys, ", ") + AclSuffix
  }

  /**
   * `_switch_annotation_permission(add, existing, force)`: `existing` holds
   * the annotations of the other privacy. A key of `add` found there is a
   * flip: refused unless forced, and dropped from `existing` when forced.
   */
  function SwitchAnnotationPermission(add: AnnotationDict, existing: AnnotationDict, force: bool)
    : (r: Result<AnnotationDict, string>)
    ensures r.Failure? <==> !force && Keys(add) * Keys(existing) != {}
    ensures r.Failure? ==> r.error == AclMessage(Clashes(add, existing))
    ensures r.Success? ==> r.value == Without(existing, Keys(add))
  {
    var clash := Clashes(add, existing);
    assert |clash| > 0 <==> Keys(add) * Keys(existing) != {} by {
      if |clash| > 0 {
        assert clash[0] in Keys(add) * Keys(existing);
      }
      if Keys(add) * Keys(existing) != {} {
        var k :| k in Keys(add) * Keys(existing);
        assert k in clash;
      }
    }
    if |clash| > 0 && !force then
      Failure(AclMessage(clash))
    else if |clash| > 0 then
      Success(Without(existing, Keys(add)))
    else
      Success(existing)
  }

  // ---------------------------------------------------------------------
  // The merge

  /**
   * What is being added: a plain dict, whose privacy comes from `to_public`,
   * or annotations already in status form, which carry their own flags.
   */
  datatype Addition = Plain(d: AnnotationDict) | InStatusForm(a: StatusAnnotations)

  /** The pairs an addition adds with the given privacy. */
  function Added(add: Addition, toPublic: bool, isPrivate: bool): AnnotationDict {
    match add
    case Plain(d) => if isPrivate == !toPublic then d else []
    case InStatusForm(a) => Collect(a, isPrivate)
  }

  /** The entries an addition asks for. */
  function Requested(add: Addition, toPublic: bool): seq<Entry> {
    match add
    case Plain(d) => AsEntries(d, !toPublic)
    case InStatusForm(a) => a.All()
  }

  ghost predicate AdditionWellFormed(add: Addition) {
    match add
    case Plain(d) => DistinctKeys(d)
    case InStatusForm(a) => UniqueKeys(a.All())
  }

  /** The keys an addition touches. */
  ghost function RequestedKeys(add: Addition, toPublic: bool): set<string> {
    set e | e in Requested(add, toPublic) :: e.key
  }

  /**
   * `update_single_submission_status(status, add, to_public, force)` on the
   * annotations of a status: the new annotations, or the ValueError message
   * of a refused privacy flip.
   */
  function UpdateAnnotations(existing: StatusAnnotations, add: Addition, toPublic: bool, force: bool)
    : (r: Result<StatusAnnotations, string>)
    ensures r.Success? ==> Typed(r.value)
  {
    var priv := Collect(existing, true);
    var pub := Collect(existing, false);
    var privAdded := Added(add, toPublic, true);
    var pubAdded := Added(add, toPublic, false);
    match SwitchAnnotationPermission(pubAdded, priv, force)
    case Failure(msg) => Failure(msg)
    case Success(privKept) =>
      match SwitchAnnotationPermission(privAdded, pub, force)
      case Failure(msg) => Failure(msg)
      case Success(pubKept) =>
        Success(Merge(ToStatusAnnotations(Update(privKept, privAdded), true),
                      ToStatusAnnotations(Update(pubKept, pubAdded), false)))
  }

  // ---------------------------------------------------------------------
  // Membership lemmas

  lemma {:induction false} OfKindMembers(d: AnnotationDict, k: Kind, p: bool, e: Entry)
    ensures e in OfKind(d, k, p) <==> e.isPrivate == p && KindOf(e.value) == k && (e.key, e.value) in d
  {
    if d != [] {
      OfKindMembers(d[1..], k, p, e);
      assert d == [d[0]] + d[1..];
    }
  }

  lemma ToStatusMembers(d: AnnotationDict, p: bool, e: Entry)
    ensures e in ToStatusAnnotations(d, p).All() <==> e.isPrivate == p && (e.key, e.value) in d
  {
    OfKindMembers(d, StringKind, p, e);
    OfKindMembers(d, LongKind, p, e);
    OfKindMembers(d, DoubleKind, p, e);
  }

  lemma {:induction false} PairsMembers(s: seq<Entry>, p: bool, k: string, v: Value)
    ensures (k, v) in Pairs(s, p) <==> Entry(k, v, p) in s
  {
    if s != [] {
      PairsMembers(s[1..], p, k, v);
      assert s == [s[0]] + s[1..];
    }
  }

  lemma {:induction false} AsEntriesMembers(d: AnnotationDict, p: bool, e: Entry)
    ensures e in AsEntries(d, p) <==> e.isPrivate == p && (e.key, e.value) in d
  {
    if d != [] {
      AsEntriesMembers(d[1..], p, e);
      assert d == [d[0]] + d[1..];
    }
  }

  /** Reading entries back into a dict loses nothing when keys are unique. */
  lemma CollectMembers(a: StatusAnnotations, p: bool, k: string, v: Value)
    requires UniqueKeys(a.All())
    ensures (k, v) in Collect(a, p) <==> Entry(k, v, p) in a.All()
  {
    var s := Pairs(a.All(), p);
    assert Consistent(s) by {
      forall x, y | x in s && y in s && x.0 == y.0 ensures x == y {
        PairsMembers(a.All(), p, x.0, x.1);
        PairsMembers(a.All(), p, y.0, y.1);
      }
    }
    UpdateMembers([], s, (k, v));
    PairsMembers(a.All(), p, k, v);
  }

  lemma AddedMembers(add: Addition, toPublic: bool, p: bool, k: string, v: Value)
    requires AdditionWellFormed(add)
    ensures (k, v) in Added(add, toPublic, p) <==> Entry(k, v, p) in Requested(add, toPublic)
  {
    match add
    case Plain(d) =>
      AsEntriesMembers(d, !toPublic, Entry(k, v, p));
    case InStatusForm(a) =>
      CollectMembers(a, p, k, v);
  }

  /** A key of the added dict of either privacy is a requested key, and back. */
  lemma AddedKeys(add: Addition, toPublic: bool, k: string)
    requires AdditionWellFormed(add)
    ensures k in RequestedKeys(add, toPublic)
        <==> k in Keys(Added(add, toPublic, true)) || k in Keys(Added(add, toPublic, false))
  {
    if k in RequestedKeys(add, toPublic) {
      var e :| e in Requested(add, toPublic) && e.key == k;
      AddedMembers(add, toPublic, e.isPrivate, k, e.value);
      KeysMembers(Added(add, toPublic, e.isPrivate), k);
    }
    if k in Keys(Added(add, toPublic, true)) {
      KeysMembers(Added(add, toPublic, true), k);
      var v :| (k, v) in Added(add, toPublic, true);
      AddedMembers(add, toPublic, true, k, v);
    }
    if k in Keys(Added(add, toPublic, false)) {
      KeysMembers(Added(add, toPublic, false), k);
      var v :| (k, v) in Added(add, toPublic, false);
      AddedMembers(add, toPublic, false, k, v);
    }
  }

  /** A key of the collected dict is a key annotated with that privacy. */
  lemma CollectKeys(a: StatusAnnotations, p: bool, k: string)
    requires UniqueKeys(a.All())
    ensures k in Keys(Collect(a, p)) <==> exists v :: Entry(k, v, p) in a.All()
  {
    KeysMembers(Collect(a, p), k);
    forall v ensures (k, v) in Collect(a, p) <==> Entry(k, v, p) in a.All() {
      CollectMembers(a, p, k, v);
    }
  }

  lemma MergeMembers(a: StatusAnnotations, b: StatusAnnotations, e: Entry)
    ensures e in Merge(a, b).All() <==> e in a.All() || e in b.All()
  {
  }

  /** The entries an addition asks for have unique keys. */
  lemma RequestedUnique(add: Addition, toPublic: bool)
    requires AdditionWellFormed(add)
    ensures UniqueKeys(Requested(add, toPublic))
  {
    if add.Plain? {
      DistinctConsistent(add.d);
      forall e, f | e in Requested(add, toPublic) && f in Requested(add, toPublic) && e.key == f.key
        ensures e == f
      {
        AsEntriesMembers(add.d, !toPublic, e);
        AsEntriesMembers(add.d, !toPublic, f);
      }
    }
  }

  // ---------------------------------------------------------------------
  // What the merge promises

  /**
   * The keys the merge finds flipping to privacy `!p`: requested with
   * privacy `!p` and annotated with privacy `p`.
   */
  ghost predicate FlipsFrom(existing: StatusAnnotations, add: Addition, toPublic: bool, p: bool) {
    exists e, f :: e in Requested(add, toPublic) && f in existing.All()
                   && e.key == f.key && f.isPrivate == p && e.isPrivate == !p
  }

  lemma {:induction false} FlipsFromIff(existing: StatusAnnotations, add: Addition, toPublic: bool, p: bool)
    requires WellFormed(existing) && AdditionWellFormed(add)
    ensures FlipsFrom(existing, add, toPublic, p)
        <==> Keys(Added(add, toPublic, !p)) * Keys(Collect(existing, p)) != {}
  {
    if FlipsFrom(existing, add, toPublic, p) {
      var e, f :| e in Requested(add, toPublic) && f in existing.All()
                  && e.key == f.key && f.isPrivate == p && e.isPrivate == !p;
      AddedMembers(add, toPublic, !p, e.key, e.value);
      KeysMembers(Added(add, toPublic, !p), e.key);
      CollectMembers(existing, p, f.key, f.value);
      KeysMembers(Collect(existing, p), f.key);
      assert e.key in Keys(Added(add, toPublic, !p)) * Keys(Collect(existing, p));
    }
    if Keys(Added(add, toPublic, !p)) * Keys(Collect(existing, p)) != {} {
      var k :| k in Keys(Added(add, toPublic, !p)) * Keys(Collect(existing, p));
      KeysMembers(Added(add, toPublic, !p), k);
      var v :| (k, v) in Added(add, toPublic, !p);
      AddedMembers(add, toPublic, !p, k, v);
      CollectKeys(existing, p, k);
      var w :| Entry(k, w, p) in existing.All();
      assert Entry(k, v, !p) in Requested(add, toPublic);
    }
  }

  /** The merge fails exactly when one of its two permission switches does. */
  lemma UpdateFails(existing: StatusAnnotations, add: Addition, toPublic: bool, force: bool)
    ensures UpdateAnnotations(existing, add, toPublic, force).Failure?
        <==> !force && (Keys(Added(add, toPublic, false)) * Keys(Collect(existing, true)) != {}
                        || Keys(Added(add, toPublic, true)) * Keys(Collect(existing, false)) != {})
  {
  }

  /**
   * A privacy flip is refused exactly when it is not forced and some
   * requested key is already annotated with the other privacy.
   */
  lemma ConflictIff(existing: StatusAnnotations, add: Addition, toPublic: bool, force: bool)
    requires WellFormed(existing) && AdditionWellFormed(add)
    ensures UpdateAnnotations(existing, add, toPublic, force).Failure?
        <==> !force && exists e, f :: e in Requested(add, toPublic) && f in existing.All()
                                      && e.key == f.key && e.isPrivate != f.isPrivate
  {
    UpdateFails(existing, add, toPublic, force);
    FlipsFromIff(existing, add, toPublic, true);
    FlipsFromIff(existing, add, toPublic, false);
    if exists e, f :: e in Requested(add, toPublic) && f in existing.All()
                      && e.key == f.key && e.isPrivate != f.isPrivate {
      var e, f :| e in Requested(add, toPublic) && f in existing.All()
                  && e.key == f.key && e.isPrivate != f.isPrivate;
      assert FlipsFrom(existing, add, toPublic, f.isPrivate);
    }
  }

  /** One side of a successful merge: the entries of privacy `p`. */
  lemma SideMembers(existing: StatusAnnotations, add: Addition, toPublic: bool,
                    kept: AnnotationDict, p: bool, e: Entry)
    requires WellFormed(existing) && AdditionWellFormed(add)
    requires kept == Without(Collect(existing, p), Keys(Added(add, toPublic, !p)))
    ensures e in ToStatusAnnotations(Update(kept, Added(add, toPublic, p)), p).All()
        <==> e.isPrivate == p
             && (e in Requested(add, toPublic)
                 || (e in existing.All() && e.key !in RequestedKeys(add, toPublic)))
  {
    var added := Added(add, toPublic, p);
    var pair := (e.key, e.value);
    ToStatusMembers(Update(kept, added), p, e);
    DistinctConsistent(added);
    UpdateMembers(kept, added, pair);
    AddedMembers(add, toPublic, p, e.key, e.value);
    WithoutMembers(Collect(existing, p), Keys(Added(add, toPublic, !p)), pair);
    CollectMembers(existing, p, e.key, e.value);
    AddedKeys(add, toPublic, e.key);
    RequestedUnique(add, toPublic);
    if e.isPrivate == p && e in existing.All() && e.key in RequestedKeys(add, toPublic) {
      // an existing entry whose key is requested is replaced, or it is the requested entry itself
      var f :| f in Requested(add, toPublic) && f.key == e.key;
      AddedMembers(add, toPublic, f.isPrivate, f.key, f.value);
    }
  }

  /**
   * A successful merge holds every requested entry, with its requested
   * privacy, and every existing entry whose key was not requested; nothing
   * else. It keeps the annotations well formed.
   */
  lemma UpdateMembership(existing: StatusAnnotations, add: Addition, toPublic: bool, force: bool, e: Entry)
    requires WellFormed(existing) && AdditionWellFormed(add)
    requires UpdateAnnotations(existing, add, toPublic, force).Success?
    ensures e in UpdateAnnotations(existing, add, toPublic, force).value.All()
        <==> e in Requested(add, toPublic)
             || (e in existing.All() && e.key !in RequestedKeys(add, toPublic))
  {
    var privKept := Without(Collect(existing, true), Keys(Added(add, toPublic, false)));
    var pubKept := Without(Collect(existing, false), Keys(Added(add, toPublic, true)));
    var priv := ToStatusAnnotations(Update(privKept, Added(add, toPublic, true)), true);
    var pub := ToStatusAnnotations(Update(pubKept, Added(add, toPublic, false)), false);
    assert UpdateAnnotations(existing, add, toPublic, force).value == Merge(priv, pub);
    MergeMembers(priv, pub, e);
    SideMembers(existing, add, toPublic, privKept, true, e);
    SideMembers(existing, add, toPublic, pubKept, false, e);
  }

  /** The merge keeps every key on one entry. */
  lemma UpdateWellFormed(existing: StatusAnnotations, add: Addition, toPublic: bool, force: bool)
    requires WellFormed(existing) && AdditionWellFormed(add)
    requires UpdateAnnotations(existing, add, toPublic, force).Success?
    ensures WellFormed(UpdateAnnotations(existing, add, toPublic, force).value)
  {
    var r := UpdateAnnotations(existing, add, toPublic, force).value;
    RequestedUnique(add, toPublic);
    forall e, f | e in r.All() && f in r.All() && e.key == f.key ensures e == f {
      UpdateMembership(existing, add, toPublic, force, e);
      UpdateMembership(existing, add, toPublic, force, f);
    }
  }

  // ---------------------------------------------------------------------
  // Round trip and appending a new key

  /** Every entry carries the privacy `p`. */
  ghost predicate AllFlagged(a: StatusAnnotations, p: bool) {
    forall e :: e in a.All() ==> e.isPrivate == p
  }

  /** `a` with `e` appended to the list of its value's type. */
  function WithEntry(a: StatusAnnotations, e: Entry): StatusAnnotations {
    match KindOf(e.value)
    case StringKind => a.(stringAnnos := a.stringAnnos + [e])
    case LongKind => a.(longAnnos := a.longAnnos + [e])
    case DoubleKind => a.(doubleAnnos := a.doubleAnnos + [e])
  }

  lemma {:induction false} PairsAppend(s: seq<Entry>, t: seq<Entry>, p: bool)
    ensures Pairs(s + t, p) == Pairs(s, p) + Pairs(t, p)
  {
    if s == [] {
      assert s + t == t;
    } else {
      Seqs.TailAppend(s, t);
      PairsAppend(s[1..], t, p);
      var h := if s[0].isPrivate == p then [(s[0].key, s[0].value)] else [];
      Seqs.AppendAssoc(h, Pairs(s[1..], p), Pairs(t, p));
    }
  }

  lemma {:induction false} PairsNone(s: seq<Entry>, p: bool)
    requires forall e :: e in s ==> e.isPrivate != p
    ensures Pairs(s, p) == []
  {
    if s != [] {
      assert s[0] in s;
      PairsNone(s[1..], p);
    }
  }

  lemma {:induction false} OfKindAppend(d: AnnotationDict, e: AnnotationDict, k: Kind, p: bool)
    ensures OfKind(d + e, k, p) == OfKind(d, k, p) + OfKind(e, k, p)
  {
    if d == [] {
      assert d + e == e;
    } else {
      Seqs.TailAppend(d, e);
      OfKindAppend(d[1..], e, k, p);
      var h := if KindOf(d[0].1) == k then [Entry(d[0].0, d[0].1, p)] else [];
      Seqs.AppendAssoc(h, OfKind(d[1..], k, p), OfKind(e, k, p));
    }
  }

  /** Reading one list into pairs and filing them again gives the list back. */
  lemma {:induction false} OfKindPairs(s: seq<Entry>, k: Kind, k': Kind, p: bool)
    requires forall e :: e in s ==> e.isPrivate == p && KindOf(e.value) == k'
    ensures OfKind(Pairs(s, p), k, p) == if k == k' then s else []
  {
    if s != [] {
      var e, rest := s[0], s[1..];
      assert e in s;
      OfKindPairs(rest, k, k', p);
      OfKindAppend([(e.key, e.value)], Pairs(rest, p), k, p);
      assert s == [e] + rest;
    }
  }

  /**
   * `to_submission_status_annotations` undoes the merge's reading of the
   * lists: annotations of one privacy, filed by type and without repeated
   * keys, come back unchanged.
   */
  lemma RoundTrip(a: StatusAnnotations, p: bool)
    requires Typed(a) && AllFlagged(a, p) && DistinctKeys(Pairs(a.All(), p))
    ensures ToStatusAnnotations(Collect(a, p), p) == a
  {
    var ps := Pairs(a.All(), p);
    UpdateFresh([], ps);
    assert Collect(a, p) == ps;
    RefileBucket(a, p, StringKind);
    RefileBucket(a, p, LongKind);
    RefileBucket(a, p, DoubleKind);
  }

  lemma RefileBucket(a: StatusAnnotations, p: bool, k: Kind)
    requires Typed(a) && AllFlagged(a, p)
    ensures OfKind(Pairs(a.All(), p), k, p) == a.Bucket(k)
  {
    FileThree(a.stringAnnos, a.longAnnos, a.doubleAnnos, k, p);
    var o1, o2, o3 := OfKind(Pairs(a.stringAnnos, p), k, p), OfKind(Pairs(a.longAnnos, p), k, p),
                      OfKind(Pairs(a.doubleAnnos, p), k, p);
    FiledBucket(a, p, k, StringKind);
    FiledBucket(a, p, k, LongKind);
    FiledBucket(a, p, k, DoubleKind);
    match k
    case StringKind => assert o1 + o2 + o3 == o1;
    case LongKind => assert o1 + o2 + o3 == o2;
    case DoubleKind => assert o1 + o2 + o3 == o3;
  }

  /** Filing the pairs read from one list keeps that list under its own type and nothing under another. */
  lemma FiledBucket(a: StatusAnnotations, p: bool, k: Kind, k': Kind)
    requires Typed(a) && AllFlagged(a, p)
    ensures OfKind(Pairs(a.Bucket(k'), p), k, p) == if k == k' then a.Bucket(k') else []
  {
    BucketFlagged(a, p, k');
    OfKindPairs(a.Bucket(k'), k, k', p);
  }

  /** Reading three lists one after another and filing the pairs files each list in turn. */
  lemma FileThree(s1: seq<Entry>, s2: seq<Entry>, s3: seq<Entry>, k: Kind, p: bool)
    ensures OfKind(Pairs(s1 + s2 + s3, p), k, p)
         == OfKind(Pairs(s1, p), k, p) + OfKind(Pairs(s2, p), k, p) + OfKind(Pairs(s3, p), k, p)
  {
    PairsAppend(s1 + s2, s3, p);
    PairsAppend(s1, s2, p);
    var ps1, ps2, ps3 := Pairs(s1, p), Pairs(s2, p), Pairs(s3, p);
    OfKindAppend(ps1 + ps2, ps3, k, p);
    OfKindAppend(ps1, ps2, k, p);
  }

  lemma BucketFlagged(a: StatusAnnotations, p: bool, k: Kind)
    requires Typed(a) && AllFlagged(a, p)
    ensures forall e :: e in a.Bucket(k) ==> e.isPrivate == p && KindOf(e.value) == k
  {
    forall e | e in a.Bucket(k) ensures e.isPrivate == p && KindOf(e.value) == k {
      assert e in a.All();
    }
  }

  /**
   * When no key changes privacy because every existing and every added
   * annotation has the same privacy `p`, the merge is `dict.update`
   * followed by filing the result by type.
   */
  lemma UpdateSamePrivacy(a: StatusAnnotations, add: Addition, toPublic: bool, force: bool, p: bool)
    requires AllFlagged(a, p) && Added(add, toPublic, !p) == []
    ensures UpdateAnnotations(a, add, toPublic, force)
         == Success(ToStatusAnnotations(Update(Collect(a, p), Added(add, toPublic, p)), p))
  {
    PairsNone(a.All(), !p);
    assert Collect(a, !p) == [];
    var r := ToStatusAnnotations(Update(Collect(a, p), Added(add, toPublic, p)), p);
    assert ToStatusAnnotations([], !p) == NoAnnotations;
    MergeNothing(r);
  }

  /** Merging with no annotations on either side changes nothing. */
  lemma MergeNothing(a: StatusAnnotations)
    ensures Merge(a, NoAnnotations) == a && Merge(NoAnnotations, a) == a
  {
    assert a.stringAnnos + [] == a.stringAnnos && [] + a.stringAnnos == a.stringAnnos;
    assert a.longAnnos + [] == a.longAnnos && [] + a.longAnnos == a.longAnnos;
    assert a.doubleAnnos + [] == a.doubleAnnos && [] + a.doubleAnnos == a.doubleAnnos;
  }

  /**
   * Adding a private annotation under a new key to private annotations
   * appends it to the list of its type and changes nothing else.
   */
  lemma UpdateAppendsNewKey(a: StatusAnnotations, k: string, v: Value)
    requires Typed(a) && AllFlagged(a, true) && DistinctKeys(Pairs(a.All(), true))
    requires forall e :: e in a.All() ==> e.key != k
    ensures UpdateAnnotations(a, Plain([(k, v)]), false, false)
         == Success(WithEntry(a, Entry(k, v, true)))
  {
    var ps := Pairs(a.All(), true);
    UpdateFresh([], ps);
    UpdateSamePrivacy(a, Plain([(k, v)]), false, false, true);
    assert k !in Keys(ps) by {
      KeysMembers(ps, k);
      forall w ensures (k, w) !in ps { PairsMembers(a.All(), true, k, w); }
    }
    assert Update(ps, [(k, v)]) == ps + [(k, v)];
    assert Collect(a, true) == ps;
    RefileAppend(a, Entry(k, v, true));
  }

  lemma RefileAppend(a: StatusAnnotations, e: Entry)
    requires Typed(a) && AllFlagged(a, e.isPrivate)
    ensures ToStatusAnnotations(Pairs(a.All(), e.isPrivate) + [(e.key, e.value)], e.isPrivate)
         == WithEntry(a, e)
  {
    var p, ps := e.isPrivate, Pairs(a.All(), e.isPrivate);
    var r := ToStatusAnnotations(ps + [(e.key, e.value)], p);
    forall kind: Kind ensures r.Bucket(kind) == WithEntry(a, e).Bucket(kind) {
      RefileAppendBucket(a, e, kind);
    }
    SameBuckets(r, WithEntry(a, e));
  }

  lemma RefileAppendBucket(a: StatusAnnotations, e: Entry, kind: Kind)
    requires Typed(a) && AllFlagged(a, e.isPrivate)
    ensures ToStatusAnnotations(Pairs(a.All(), e.isPrivate) + [(e.key, e.value)], e.isPrivate).Bucket(kind)
         == WithEntry(a, e).Bucket(kind)
  {
    RefileBucket(a, e.isPrivate, kind);
    OfKindAppend(Pairs(a.All(), e.isPrivate), [(e.key, e.value)], kind, e.isPrivate);
    WithEntryBucket(a, e, kind);
  }

  /** `WithEntry` appends the entry to the list of its type and leaves the other two lists alone. */
  lemma WithEntryBucket(a: StatusAnnotations, e: Entry, kind: Kind)
    ensures WithEntry(a, e).Bucket(kind) == a.Bucket(kind) + (if KindOf(e.value) == kind then [e] else [])
  {
  }

  /** Annotations are determined by their three lists. */
  lemma SameBuckets(a: StatusAnnotations, b: StatusAnnotations)
    requires forall kind: Kind :: a.Bucket(kind) == b.Bucket(kind)
    ensures a == b
  {
    assert a.Bucket(StringKind) == b.Bucket(StringKind);
    assert a.Bucket(LongKind) == b.Bucket(LongKind);
    assert a.Bucket(DoubleKind) == b.Bucket(DoubleKind);
  }

  // ---------------------------------------------------------------------
  // The cases the test suite fixes

  lemma SwitchRefusesFlip()
    ensures SwitchAnnotationPermission([("test", Long(2)), ("test2", Long(2))], [("test", Long(1))], false)
         == Failure(AclPrefix + "test" + AclSuffix)
  {
    var add := [("test", Long(2)), ("test2", Long(2))];
    var ex := [("test", Long(1))];
    assert Keys(ex) == {"test"};
    assert Clashes(add, ex) == ["test"];
    assert Text.Join(["test"], ", ") == "test";
    assert AclMessage(["test"]) == AclPrefix + "test" + AclSuffix;
  }

  lemma SwitchForcedDropsFlipped()
    ensures SwitchAnnotationPermission([("test", Long(2)), ("test2", Long(2))], [("test", Long(1))], true)
         == Success([])
  {
  }

  lemma SwitchWithoutOverlap()
    ensures SwitchAnnotationPermission([("test", Long(2)), ("test2", Long(2))], [("test3", Long(1))], true)
         == Success([("test3", Long(1))])
  {
  }

  /** Filing a one-pair dict gives that one entry. */
  lemma FileSingle(k: string, v: Value, p: bool)
    ensures ToStatusAnnotations([(k, v)], p).All() == [Entry(k, v, p)]
  {
    var d := [(k, v)];
    assert d[1..] == [];
    var r := ToStatusAnnotations(d, p);
    forall kind: Kind ensures OfKind(d, kind, p) == if KindOf(v) == kind then [Entry(k, v, p)] else [] {
      assert OfKind(d, kind, p)
          == (if KindOf(v) == kind then [Entry(k, v, p)] else []) + OfKind(d[1..], kind, p);
    }
    match KindOf(v)
    case StringKind =>
      assert r == StatusAnnotations([Entry(k, v, p)], [], []);
    case LongKind =>
      assert r == StatusAnnotations([], [Entry(k, v, p)], []);
    case DoubleKind =>
      assert r == StatusAnnotations([], [], [Entry(k, v, p)]);
  }

  /** Reading a single entry back gives its pair on its side and nothing on the other. */
  lemma CollectSingle(a: StatusAnnotations, e: Entry)
    requires a.All() == [e]
    ensures Collect(a, e.isPrivate) == [(e.key, e.value)]
    ensures Collect(a, !e.isPrivate) == []
  {
    var s := a.All();
    assert s[1..] == [];
    assert Pairs(s, e.isPrivate) == [(e.key, e.value)];
    assert Pairs(s, !e.isPrivate) == [];
    UpdateFresh([], [(e.key, e.value)]);
  }

  /** A plain dict of one type replaces a private annotation of another. */
  lemma UpdateChangesType(k: string, was: string, n: int)
    ensures UpdateAnnotations(ToStatusAnnotations([(k, Str(was))], true),
                              Plain([(k, Long(n))]), false, false)
         == Success(ToStatusAnnotations([(k, Long(n))], true))
  {
    var a := ToStatusAnnotations([(k, Str(was))], true);
    FileSingle(k, Str(was), true);
    CollectSingle(a, Entry(k, Str(was), true));
    UpdateSamePrivacy(a, Plain([(k, Long(n))]), false, false, true);
    assert Update([(k, Str(was))], [(k, Long(n))]) == [(k, Long(n))];
  }

  /** Annotations in status form replace an existing one of the same key. */
  lemma UpdateInStatusForm(k: string, n: int, x: real)
    ensures UpdateAnnotations(ToStatusAnnotations([(k, Long(n))], true),
                              InStatusForm(ToStatusAnnotations([(k, Double(x))], true)), false, false)
         == Success(ToStatusAnnotations([(k, Double(x))], true))
  {
    var a := ToStatusAnnotations([(k, Long(n))], true);
    var b := ToStatusAnnotations([(k, Double(x))], true);
    FileSingle(k, Long(n), true);
    FileSingle(k, Double(x), true);
    CollectSingle(a, Entry(k, Long(n), true));
    CollectSingle(b, Entry(k, Double(x), true));
    UpdateSamePrivacy(a, InStatusForm(b), false, false, true);
    assert Update([(k, Long(n))], [(k, Double(x))]) == [(k, Double(x))];
  }

  /** `to_public=True` files a plain dict as public annotations. */
  lemma UpdateToPublic(d: AnnotationDict)
    requires DistinctKeys(d)
    ensures UpdateAnnotations(NoAnnotations, Plain(d), true, false)
         == Success(ToStatusAnnotations(d, false))
  {
    assert NoAnnotations.All() == [];
    assert Collect(NoAnnotations, false) == [];
    assert Added(Plain(d), true, true) == [] && Added(Plain(d), true, false) == d;
    UpdateSamePrivacy(NoAnnotations, Plain(d), true, false, false);
    UpdateFresh([], d);
    assert Update([], d) == d;
  }
}
