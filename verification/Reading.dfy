/**
 Which elements of a push are refused before any table is looked at, and why, said of the elements as they
 were sent.
 */
module Reading {
  import opened Outcomes
  import opened Tables
  import opened Changes

  /** The element addresses an entity: a kind there is, an id there can be, no negative version. */
  ghost predicate Names(raw: RawChange, kindName: string, id: string) {
    && raw.RawChange? && raw.kindName == kindName && raw.id == id
    && (exists kind :: KindName(kind) == kindName)
    && 0 < |id| <= MAX_ID_CHARS && (forall i :: 0 <= i < |id| ==> id[i] != '\0')
    && raw.baseVersion >= 0
  }

  /** An earlier element of the push addressed the same entity, whatever became of it. */
  ghost predicate NamedBefore(raws: seq<RawChange>, i: nat)
    requires i < |raws| && raws[i].RawChange?
  {
    exists j :: 0 <= j < i && Names(raws[j], raws[i].kindName, raws[i].id)
  }

  /** Its fields are those of its kind. */
  ghost predicate HasItsFields(raw: RawChange)
    requires raw.RawChange?
  {
    if raw.kindName == "notebook" then raw.fields.NotebookFields?
    else if raw.kindName == "pageContent" then raw.fields.ContentFields?
    else if raw.kindName == "attachment" then raw.fields.AttachmentFields?
    else raw.fields.ChildFields?
  }

  /** Sixty-four hexadecimal digits, none of them upper case. */
  ghost predicate IsDigestText(text: string) {
    |text| == 64 && forall i :: 0 <= i < |text| ==> text[i] in "0123456789abcdef"
  }

  ghost predicate CanBeDecoded(raws: seq<RawChange>, i: nat)
    requires i < |raws|
  {
    var raw := raws[i];
    && raw.RawChange? && Names(raw, raw.kindName, raw.id) && !NamedBefore(raws, i)
    && HasItsFields(raw) && raw.verdict == None && (raw.kindName == "attachment" ==> IsDigestText(raw.id))
  }

  /** The two things that are too large: an id that is nothing else wrong, and what a field check calls so. */
  ghost predicate IsTooLarge(raws: seq<RawChange>, i: nat)
    requires i < |raws|
  {
    var raw := raws[i];
    && raw.RawChange? && (exists kind :: KindName(kind) == raw.kindName)
    && ((|raw.id| > MAX_ID_CHARS && forall k :: 0 <= k < |raw.id| ==> raw.id[k] != '\0') ||
        (Names(raw, raw.kindName, raw.id) && !NamedBefore(raws, i) && HasItsFields(raw) &&
         raw.verdict == Some(TooLarge)))
  }

  ghost predicate WhatItNeeds(raw: RawChange, required: seq<Digest>)
    requires raw.RawChange?
  {
    if raw.kindName == "attachment" then required == [raw.id]
    else if raw.kindName == "pageContent" then raw.fields.ContentFields? && required == raw.fields.blobRefs
    else required == []
  }

  /** What became of one element of a push. */
  ghost predicate ReadAs(raws: seq<RawChange>, i: nat, change: Change)
    requires i < |raws|
  {
    var raw := raws[i];
    if CanBeDecoded(raws, i) then
      && change.Decoded? && KindName(change.key.kind) == raw.kindName && change.key.id == raw.id
      && change.baseVersion == raw.baseVersion && change.deletedAt == raw.deletedAt
      && change.updatedAt == raw.updatedAt && change.fields == raw.fields && WhatItNeeds(raw, change.required)
    else
      && change.Refused? && change.rejection.current == None
      && change.rejection.kind == (if raw.RawChange? then raw.kindName else "")
      && change.rejection.id == (if raw.RawChange? then raw.id else "")
      && change.rejection.reason == (if IsTooLarge(raws, i) then TooLarge else Malformed)
  }

  lemma KindsByName(name: string)
    ensures KindByName(name).Some? <==> exists kind :: KindName(kind) == name
    ensures forall kind :: KindName(kind) == name ==> KindByName(name) == Some(kind)
  {
  }

  lemma FaultlessIds(id: string)
    ensures IdFault(id).None? <==> 0 < |id| <= MAX_ID_CHARS && forall i :: 0 <= i < |id| ==> id[i] != '\0'
    ensures IdFault(id) == Some(TooLarge) <==>
            |id| > MAX_ID_CHARS && forall i :: 0 <= i < |id| ==> id[i] != '\0'
    ensures IdFault(id).Some? ==> IdFault(id).value.TooLarge? || IdFault(id).value.Malformed?
  {
  }

  lemma DigestTexts(text: string)
    ensures ValidDigest(text) <==> IsDigestText(text)
  {
    forall c: char
      ensures IsHex(c) <==> c in "0123456789abcdef"
    {
      HexDigits(c);
    }
    hide IsHex;
  }

  lemma HexDigits(c: char)
    ensures IsHex(c) <==> c in "0123456789abcdef"
  {
    var digits := "0123456789abcdef";
    if c in digits {
      var i :| 0 <= i < |digits| && digits[i] == c;
    }
    if '0' <= c <= '9' {
      assert digits[(c - '0') as int] == c;
    } else if 'a' <= c <= 'f' {
      assert digits[10 + (c - 'a') as int] == c;
    }
  }

  lemma AddressedIsNamed(raw: RawChange, kindName: string, id: string)
    ensures Names(raw, kindName, id) <==>
            Addressed(raw).Ok? && KindName(Addressed(raw).value.kind) == kindName && Addressed(raw).value.id == id
  {
    if raw.RawChange? {
      KindsByName(raw.kindName);
      FaultlessIds(raw.id);
    }
    hide KindByName, KindName, IdFault;
  }

  lemma KindsDiffer(a: Kind, b: Kind)
    ensures KindName(a) == KindName(b) ==> a == b
  {
    KindsByName(KindName(a));
  }

  /** What the loop has seen is what the elements so far addressed. */
  lemma {:induction false} SeenIsNamed(raws: seq<RawChange>, key: Key)
    ensures key in Seen(raws) <==> exists j :: 0 <= j < |raws| && Names(raws[j], KindName(key.kind), key.id)
  {
    if raws != [] {
      var n := |raws| - 1;
      SeenIsNamed(raws[..n], key);
      AddressedIsNamed(raws[n], KindName(key.kind), key.id);
      if Addressed(raws[n]).Ok? {
        KindsDiffer(Addressed(raws[n]).value.kind, key.kind);
      }
      hide Names, Addressed, KindName;
      if j :| 0 <= j < n && Names(raws[..n][j], KindName(key.kind), key.id) {
        assert Names(raws[j], KindName(key.kind), key.id);
      }
      if j :| 0 <= j < |raws| && Names(raws[j], KindName(key.kind), key.id) {
        assert j < n ==> raws[..n][j] == raws[j];
      }
    }
  }

  lemma FieldsAreItsOwn(raw: RawChange, kind: Kind)
    requires raw.RawChange? && raw.kindName == KindName(kind)
    ensures FieldsFit(kind, raw.fields) <==> HasItsFields(raw)
    ensures kind.Attachment? <==> raw.kindName == "attachment"
    ensures kind.PageContent? <==> raw.kindName == "pageContent"
  {
  }

  lemma ReadOne(raws: seq<RawChange>, i: nat)
    requires i < |raws|
    ensures ReadAs(raws, i, DecodeOne(raws[i], Seen(raws[..i])))
  {
    var raw := raws[i];
    if raw.RawChange? {
      KindsByName(raw.kindName);
      FaultlessIds(raw.id);
      DigestTexts(raw.id);
      AddressedIsNamed(raw, raw.kindName, raw.id);
      if Addressed(raw).Ok? {
        var key := Addressed(raw).value;
        SeenIsNamed(raws[..i], key);
        FieldsAreItsOwn(raw, key.kind);
        NamedBeforeIsSeen(raws, i, key);
      }
    }
    hide Names, NamedBefore, HasItsFields, IsDigestText, ValidDigest, KindByName, KindName, IdFault, FieldsFit, Seen;
  }

  lemma NamedBeforeIsSeen(raws: seq<RawChange>, i: nat, key: Key)
    requires i < |raws| && raws[i].RawChange? && raws[i].kindName == KindName(key.kind) && raws[i].id == key.id
    ensures NamedBefore(raws, i) <==> key in Seen(raws[..i])
  {
    SeenIsNamed(raws[..i], key);
    hide Names, Seen;
    if j :| 0 <= j < i && Names(raws[j], raws[i].kindName, raws[i].id) {
      assert raws[..i][j] == raws[j];
    }
  }

  /**
   Exactly which elements of a push are refused as they are read, and with what reason: unreadable, of no
   kind there is, under an id or a version there cannot be, addressed before, with another kind's fields,
   failing their own checks, or an attachment under no digest. The rest are decoded as they were sent.
   */
  lemma {:induction false} RefusedExactly(raws: seq<RawChange>, i: nat)
    requires i < |raws|
    ensures ReadAs(raws, i, DecodeEach(raws)[i])
  {
    var n := |raws| - 1;
    if i < n {
      RefusedExactly(raws[..n], i);
      SameWithin(raws, i, DecodeEach(raws)[i]);
    } else {
      ReadOne(raws, i);
    }
    hide DecodeOne, ReadAs, Seen;
  }

  /** What becomes of an element does not depend on those after it. */
  lemma SameWithin(raws: seq<RawChange>, i: nat, change: Change)
    requires i < |raws| - 1
    ensures ReadAs(raws[..|raws| - 1], i, change) <==> ReadAs(raws, i, change)
  {
    var prefix := raws[..|raws| - 1];
    assert prefix[i] == raws[i];
    if raws[i].RawChange? {
      assert forall j :: 0 <= j < i ==> prefix[j] == raws[j];
      assert NamedBefore(prefix, i) <==> NamedBefore(raws, i);
    }
    hide Names, NamedBefore, HasItsFields, IsDigestText;
  }

  /** The batch that goes on to be judged holds each element, read. */
  lemma EveryDecodedWasSent(raws: seq<RawChange>, change: Change)
    requires change in Decode(raws)
    ensures exists i :: 0 <= i < |raws| && ReadAs(raws, i, change)
  {
    SortByRankIsStable(DecodeEach(raws));
    hide DecodeEach, SortByRank, ReadAs;
    assert change in multiset(Decode(raws));
    assert change in DecodeEach(raws);
    var i :| 0 <= i < |raws| && DecodeEach(raws)[i] == change;
    RefusedExactly(raws, i);
  }
}
