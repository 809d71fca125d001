/**
 Reading a push: every raw change becomes a decoded change or a refusal, duplicates are refused,
 and the result is stably sorted so that parents come before children.
 */
module Changes {
  import opened Outcomes
  import opened Tables

  datatype Reason = VersionConflict | MissingParent | TooLarge | Malformed | MissingBlob | Purged

  datatype RejectedChange = RejectedChange(kind: string, id: string, reason: Reason, current: Option<Row>)

  /**
   One element of a push. `Unreadable` is a value that is not a change object at all. `verdict` is
   what the kind's own field checks, and the cap on unrecognised fields, said about it.
   */
  datatype RawChange =
    | Unreadable
    | RawChange(kindName: string, id: string, baseVersion: int, deletedAt: Option<int>, updatedAt: int,
                fields: Fields, verdict: Option<Reason>)

  datatype Change =
    | Refused(kind: Option<Kind>, rejection: RejectedChange)
    | Decoded(key: Key, baseVersion: nat, deletedAt: Option<int>, updatedAt: int, fields: Fields,
              required: seq<Digest>)

  const MAX_ID_CHARS: nat := 512
  const DIGEST_CHARS: nat := 64

  function KindByName(name: string): (kind: Option<Kind>)
    ensures kind.Some? ==> KindName(kind.value) == name
  {
    if name == "notebook" then Some(Notebook)
    else if name == "section" then Some(Section)
    else if name == "page" then Some(Page)
    else if name == "pageContent" then Some(PageContent)
    else if name == "inkStroke" then Some(InkStroke)
    else if name == "inkErase" then Some(InkErase)
    else if name == "inkMove" then Some(InkMove)
    else if name == "attachment" then Some(Attachment)
    else None
  }

  /** The reason an id cannot address an entity, if there is one. */
  function IdFault(id: string): Option<Reason> {
    if id == "" then Some(Malformed)
    else if '\0' in id then Some(Malformed)
    else if |id| > MAX_ID_CHARS then Some(TooLarge)
    else None
  }

  predicate IsHex(c: char) { '0' <= c <= '9' || 'a' <= c <= 'f' }

  predicate ValidDigest(digest: Digest) {
    |digest| == DIGEST_CHARS && forall i :: 0 <= i < |digest| ==> IsHex(digest[i])
  }

  function Refuse(kind: Kind, id: string, reason: Reason): Change {
    Refused(Some(kind), RejectedChange(KindName(kind), id, reason, None))
  }

  /** The checks that need no database, up to the one that marks the entity as seen. */
  function Addressed(raw: RawChange): (answer: Result<Key, Change>)
    ensures answer.Ok? ==> raw.RawChange? && raw.baseVersion >= 0 && raw.id == answer.value.id
    ensures answer.Err? ==> answer.error.Refused?
  {
    if raw.Unreadable? then Err(Refused(None, RejectedChange("", "", Malformed, None)))
    else
      match KindByName(raw.kindName)
      case None => Err(Refused(None, RejectedChange(raw.kindName, raw.id, Malformed, None)))
      case Some(kind) =>
        match IdFault(raw.id)
        case Some(reason) => Err(Refuse(kind, raw.id, reason))
        case None =>
          if raw.baseVersion < 0 then Err(Refuse(kind, raw.id, Malformed))
          else Ok(Key(kind, raw.id))
  }

  /** The checks that follow it: the fields, the unrecognised fields and the blobs they name. */
  function DecodeFields(raw: RawChange, key: Key): (change: Change)
    requires raw.RawChange? && raw.baseVersion >= 0
    ensures change.Decoded? ==> change.key == key && FieldsFit(key.kind, change.fields)
  {
    if !FieldsFit(key.kind, raw.fields) then Refuse(key.kind, key.id, Malformed)
    else if raw.verdict.Some? then
      Refuse(key.kind, key.id, if raw.verdict.value.TooLarge? then TooLarge else Malformed)
    else if key.kind.Attachment? && !ValidDigest(key.id) then Refuse(key.kind, key.id, Malformed)
    else
      Decoded(key, raw.baseVersion, raw.deletedAt, raw.updatedAt, raw.fields,
              match key.kind
              case Attachment => [key.id]
              case PageContent => raw.fields.blobRefs
              case _ => [])
  }

  /** The keys a prefix of a push has already claimed. */
  function Seen(raws: seq<RawChange>): set<Key> {
    if raws == [] then {}
    else
      var before := Seen(raws[..|raws| - 1]);
      match Addressed(raws[|raws| - 1])
      case Err(_) => before
      case Ok(key) => before + {key}
  }

  function DecodeOne(raw: RawChange, seen: set<Key>): Change {
    match Addressed(raw)
    case Err(refusal) => refusal
    case Ok(key) =>
      if key in seen then Refuse(key.kind, key.id, Malformed) else DecodeFields(raw, key)
  }

  /** Every element of a push in the order the client sent it. */
  function DecodeEach(raws: seq<RawChange>): (changes: seq<Change>)
    ensures |changes| == |raws|
  {
    if raws == [] then []
    else
      var prefix := raws[..|raws| - 1];
      DecodeEach(prefix) + [DecodeOne(raws[|raws| - 1], Seen(prefix))]
  }

  /** No two accepted changes address one entity. */
  ghost predicate DistinctKeys(changes: seq<Change>) {
    forall i, j :: 0 <= i < j < |changes| && changes[i].Decoded? && changes[j].Decoded? ==>
      changes[i].key != changes[j].key
  }

  lemma {:induction false} DecodeEachIsDistinct(raws: seq<RawChange>)
    ensures DistinctKeys(DecodeEach(raws))
    ensures forall i :: 0 <= i < |raws| && DecodeEach(raws)[i].Decoded? ==> DecodeEach(raws)[i].key in Seen(raws)
  {
    if raws != [] {
      DecodeEachIsDistinct(raws[..|raws| - 1]);
    }
  }

  lemma {:induction false} DecodedInPlace(raws: seq<RawChange>, i: nat)
    requires i < |raws|
    ensures DecodeEach(raws)[i] == DecodeOne(raws[i], Seen(raws[..i]))
  {
    if i < |raws| - 1 {
      DecodedInPlace(raws[..|raws| - 1], i);
      assert raws[..|raws| - 1][..i] == raws[..i];
    }
  }

  lemma {:induction false} AddressedIsSeen(raws: seq<RawChange>, i: nat)
    requires i < |raws| && Addressed(raws[i]).Ok?
    ensures Addressed(raws[i]).value in Seen(raws)
  {
    if i < |raws| - 1 {
      AddressedIsSeen(raws[..|raws| - 1], i);
    }
  }

  /** Of two changes to one entity only the first counts, even when the first is refused for its fields. */
  lemma {:induction false} OnlyTheFirstOfADuplicateCounts(raws: seq<RawChange>, i: nat, j: nat)
    requires i < j < |raws| && Addressed(raws[i]).Ok? && Addressed(raws[i]) == Addressed(raws[j])
    ensures DecodeEach(raws)[j] == Refuse(Addressed(raws[j]).value.kind, Addressed(raws[j]).value.id, Malformed)
  {
    DecodedInPlace(raws, j);
    AddressedIsSeen(raws[..j], i);
  }

  // ------------------------------------------------------------------ stable sort by rank

  /** A change whose kind could not be resolved sorts last. */
  function ApplyRank(change: Change): nat {
    match change
    case Decoded(key, _, _, _, _, _) => Rank(key.kind)
    case Refused(Some(kind), _) => Rank(kind)
    case Refused(None, _) => KIND_COUNT
  }

  function ChangeKind(change: Change): Option<Kind> {
    match change
    case Decoded(key, _, _, _, _, _) => Some(key.kind)
    case Refused(kind, _) => kind
  }

  /** Stable insertion: after everything that does not rank above it. */
  function Insert(sorted: seq<Change>, change: Change): seq<Change> {
    if sorted != [] && ApplyRank(sorted[|sorted| - 1]) > ApplyRank(change) then
      Insert(sorted[..|sorted| - 1], change) + [sorted[|sorted| - 1]]
    else sorted + [change]
  }

  function SortByRank(changes: seq<Change>): seq<Change> {
    if changes == [] then []
    else Insert(SortByRank(changes[..|changes| - 1]), changes[|changes| - 1])
  }

  ghost predicate RankOrdered(changes: seq<Change>) {
    forall i, j :: 0 <= i < j < |changes| ==> ApplyRank(changes[i]) <= ApplyRank(changes[j])
  }

  /** The changes of one rank, in order: what a stable sort must not disturb. */
  function OfRank(changes: seq<Change>, rank: nat): seq<Change> {
    if changes == [] then []
    else
      OfRank(changes[..|changes| - 1], rank) +
      (if ApplyRank(changes[|changes| - 1]) == rank then [changes[|changes| - 1]] else [])
  }

  lemma {:induction false} InsertKeepsOrder(sorted: seq<Change>, change: Change)
    requires RankOrdered(sorted)
    ensures RankOrdered(Insert(sorted, change))
  {
    if sorted != [] && ApplyRank(sorted[|sorted| - 1]) > ApplyRank(change) {
      var prefix, last := sorted[..|sorted| - 1], sorted[|sorted| - 1];
      assert sorted == prefix + [last];
      InsertKeepsOrder(prefix, change);
      forall x | x in Insert(prefix, change)
        ensures ApplyRank(x) <= ApplyRank(last)
      {
        InsertHolds(prefix, change, x);
      }
      AppendKeepsOrder(Insert(prefix, change), last);
    }
  }

  lemma AppendKeepsOrder(sorted: seq<Change>, last: Change)
    requires RankOrdered(sorted)
    requires forall x :: x in sorted ==> ApplyRank(x) <= ApplyRank(last)
    ensures RankOrdered(sorted + [last])
  {
    forall i | 0 <= i < |sorted|
      ensures ApplyRank(sorted[i]) <= ApplyRank(last)
    {
      assert sorted[i] in sorted;
    }
  }

  lemma {:induction false} InsertHolds(sorted: seq<Change>, change: Change, x: Change)
    requires x in Insert(sorted, change)
    ensures x in sorted || x == change
  {
    if sorted != [] && ApplyRank(sorted[|sorted| - 1]) > ApplyRank(change) && x != sorted[|sorted| - 1] {
      InsertHolds(sorted[..|sorted| - 1], change, x);
    }
  }

  lemma {:induction false} InsertIsPermutation(sorted: seq<Change>, change: Change)
    ensures multiset(Insert(sorted, change)) == multiset(sorted) + multiset{change}
  {
    if sorted != [] && ApplyRank(sorted[|sorted| - 1]) > ApplyRank(change) {
      assert sorted == sorted[..|sorted| - 1] + [sorted[|sorted| - 1]];
      InsertIsPermutation(sorted[..|sorted| - 1], change);
    }
  }

  lemma {:induction false} InsertIsStable(sorted: seq<Change>, change: Change, rank: nat)
    ensures OfRank(Insert(sorted, change), rank) ==
            OfRank(sorted, rank) + (if ApplyRank(change) == rank then [change] else [])
  {
    if sorted != [] && ApplyRank(sorted[|sorted| - 1]) > ApplyRank(change) {
      var prefix, last := sorted[..|sorted| - 1], sorted[|sorted| - 1];
      InsertIsStable(prefix, change, rank);
      assert (Insert(prefix, change) + [last])[..|Insert(prefix, change)|] == Insert(prefix, change);
    } else {
      assert (sorted + [change])[..|sorted|] == sorted;
    }
  }

  /** Rank-ordered, a permutation, and undisturbed within each rank: together these fix the result. */
  lemma {:induction false} SortByRankIsStable(changes: seq<Change>)
    ensures RankOrdered(SortByRank(changes))
    ensures multiset(SortByRank(changes)) == multiset(changes)
    ensures forall rank :: OfRank(SortByRank(changes), rank) == OfRank(changes, rank)
  {
    if changes != [] {
      var prefix, last := changes[..|changes| - 1], changes[|changes| - 1];
      assert changes == prefix + [last];
      SortByRankIsStable(prefix);
      InsertKeepsOrder(SortByRank(prefix), last);
      InsertIsPermutation(SortByRank(prefix), last);
      forall rank: nat
        ensures OfRank(SortByRank(changes), rank) == OfRank(changes, rank)
      {
        InsertIsStable(SortByRank(prefix), last, rank);
      }
    }
  }

  lemma {:induction false} InsertKeepsDistinct(sorted: seq<Change>, change: Change)
    requires DistinctKeys(sorted + [change])
    ensures DistinctKeys(Insert(sorted, change))
  {
    if sorted != [] && ApplyRank(sorted[|sorted| - 1]) > ApplyRank(change) {
      var prefix, last := sorted[..|sorted| - 1], sorted[|sorted| - 1];
      var all := sorted + [change];
      forall i, j | 0 <= i < j < |prefix + [change]| &&
                    (prefix + [change])[i].Decoded? && (prefix + [change])[j].Decoded?
        ensures (prefix + [change])[i].key != (prefix + [change])[j].key
      {
        assert (prefix + [change])[i] == all[i];
        assert (prefix + [change])[j] == all[if j < |prefix| then j else j + 1];
      }
      InsertKeepsDistinct(prefix, change);
      forall x | x in Insert(prefix, change) && x.Decoded? && last.Decoded?
        ensures x.key != last.key
      {
        InsertHolds(prefix, change, x);
        assert all[|prefix|] == last && all[|prefix| + 1] == change;
        if x != change {
          var i :| 0 <= i < |prefix| && prefix[i] == x;
          assert all[i] == x;
        }
      }
    }
  }

  lemma {:induction false} SortKeepsDistinct(changes: seq<Change>)
    requires DistinctKeys(changes)
    ensures DistinctKeys(SortByRank(changes))
  {
    if changes != [] {
      var prefix, last := changes[..|changes| - 1], changes[|changes| - 1];
      SortKeepsDistinct(prefix);
      SortByRankIsStable(prefix);
      var sorted := SortByRank(prefix);
      forall i | 0 <= i < |sorted| && sorted[i].Decoded? && last.Decoded?
        ensures sorted[i].key != last.key
      {
        assert sorted[i] in multiset(sorted);
        assert sorted[i] in prefix;
      }
      InsertKeepsDistinct(sorted, last);
    }
  }

  function Decode(raws: seq<RawChange>): seq<Change> {
    SortByRank(DecodeEach(raws))
  }

  /** What the engine relies on: one outcome slot per input, parents first, no entity twice. */
  lemma DecodeIsOrderedAndDistinct(raws: seq<RawChange>)
    ensures |Decode(raws)| == |raws|
    ensures RankOrdered(Decode(raws))
    ensures DistinctKeys(Decode(raws))
  {
    var each := DecodeEach(raws);
    SortByRankIsStable(each);
    DecodeEachIsDistinct(raws);
    SortKeepsDistinct(each);
    assert |multiset(each)| == |each|;
    assert |multiset(SortByRank(each))| == |SortByRank(each)|;
  }

  /** The loop over the raw changes, with its set of entities already seen, then the sort. */
  method DecodeChanges(raws: seq<RawChange>) returns (changes: seq<Change>)
    ensures changes == Decode(raws)
  {
    var decoded: seq<Change> := [];
    var seen: set<Key> := {};
    for i := 0 to |raws|
      invariant decoded == DecodeEach(raws[..i])
      invariant seen == Seen(raws[..i])
    {
      assert raws[..i + 1][..i] == raws[..i];
      var answer := Addressed(raws[i]);
      if answer.Err? {
        decoded := decoded + [answer.error];
      } else if answer.value in seen {
        decoded := decoded + [Refuse(answer.value.kind, answer.value.id, Malformed)];
      } else {
        seen := seen + {answer.value};
        decoded := decoded + [DecodeFields(raws[i], answer.value)];
      }
      if answer.Ok? {
        assert seen == Seen(raws[..i]) + {answer.value};
      }
    }
    assert raws[..|raws|] == raws;

    // The library's stable sort, as repeated insertion.
    changes := [];
    for i := 0 to |decoded|
      invariant changes == SortByRank(decoded[..i])
    {
      assert decoded[..i + 1][..i] == decoded[..i];
      changes := Insert(changes, decoded[i]);
    }
    assert decoded[..|decoded|] == decoded;
  }
}
