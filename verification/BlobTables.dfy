/**
 Who holds which bytes, what they cost, and what still points at them: the claims of one account, its
 storage figure, and the statements the sweeper runs over them.
 */
module BlobTables {
  import opened Outcomes
  import opened Tables

  /** A row of `blobs`. The mark says since when nothing was seen to want these bytes. */
  datatype Claim = Claim(byteCount: nat, unreferencedSince: Option<int>)

  /** One account, as the attachment store sees it. */
  datatype Ledger = Ledger(store: Store, claims: map<Digest, Claim>, storageBytes: int)

  type Ledgers = map<string, Ledger>

  // ------------------------------------------------------------------ what wants a digest

  predicate LivePage(rows: Rows, pageId: string) {
    Key(Page, pageId) in rows && rows[Key(Page, pageId)].deletedAt.None?
  }

  predicate DeletedPage(rows: Rows, pageId: string) {
    Key(Page, pageId) in rows && rows[Key(Page, pageId)].deletedAt.Some?
  }

  predicate OnALivePage(store: Store, digest: Digest) {
    exists ref :: ref in store.refs && ref.digest == digest && LivePage(store.rows, ref.pageId)
  }

  predicate HeldByADevice(rows: Rows, digest: Digest) {
    Key(Attachment, digest) in rows && rows[Key(Attachment, digest)].deletedAt.None?
  }

  predicate Reachable(store: Store, digest: Digest) {
    OnALivePage(store, digest) || HeldByADevice(store.rows, digest)
  }

  /** Some reference row names the digest: what the foreign key to `blobs` objects to losing. */
  predicate Named(store: Store, digest: Digest) {
    exists ref :: ref in store.refs && ref.digest == digest
  }

  // ------------------------------------------------------------------ the statements

  /** A digest already held is left alone, its mark included. */
  function Recorded(ledger: Ledger, digest: Digest, byteCount: nat): Ledger {
    if digest in ledger.claims then ledger
    else
      ledger.(claims := ledger.claims[digest := Claim(byteCount, None)],
              storageBytes := ledger.storageBytes + byteCount)
  }

  function Pruned(ledger: Ledger): Ledger {
    var store := ledger.store;
    ledger.(store := store.(refs := set ref | ref in store.refs && !DeletedPage(store.rows, ref.pageId)))
  }

  function Marked(ledger: Ledger, now: int): Ledger {
    ledger.(claims := map digest | digest in ledger.claims ::
      if ledger.claims[digest].unreferencedSince.None? && !Reachable(ledger.store, digest)
      then ledger.claims[digest].(unreferencedSince := Some(now))
      else ledger.claims[digest])
  }

  function Unmarked(ledger: Ledger): Ledger {
    ledger.(claims := map digest | digest in ledger.claims ::
      if ledger.claims[digest].unreferencedSince.Some? && Reachable(ledger.store, digest)
      then ledger.claims[digest].(unreferencedSince := None)
      else ledger.claims[digest])
  }

  /** Marked for longer than the grace period. */
  predicate Overdue(claim: Claim, now: int, grace: nat) {
    claim.unreferencedSince.Some? && claim.unreferencedSince.value < now - grace
  }

  /** The guard of the delete, and the foreign key behind it. */
  predicate Deletable(ledger: Ledger, digest: Digest, now: int, grace: nat) {
    digest in ledger.claims && Overdue(ledger.claims[digest], now, grace) && !Named(ledger.store, digest)
  }

  function Max(a: int, b: int): int { if a < b then b else a }

  /** The claim goes and its bytes are refunded, never below zero. */
  function Deleted(ledger: Ledger, digest: Digest): Ledger
    requires digest in ledger.claims
  {
    ledger.(claims := ledger.claims - {digest},
            storageBytes := Max(ledger.storageBytes - ledger.claims[digest].byteCount, 0))
  }

  predicate HeldAnywhere(ledgers: Ledgers, digest: Digest) {
    exists account :: account in ledgers && digest in ledgers[account].claims
  }

  // ------------------------------------------------------------------ the storage figure

  /** What an account's claims add up to. */
  ghost function Total(claims: map<Digest, Claim>): nat
    decreases |claims|
  {
    if claims == map[] then 0
    else
      var digest :| digest in claims;
      claims[digest].byteCount + Total(claims - {digest})
  }

  /** The order the sum is taken in does not matter. */
  lemma {:induction false} TotalWithout(claims: map<Digest, Claim>, digest: Digest)
    requires digest in claims
    ensures Total(claims) == claims[digest].byteCount + Total(claims - {digest})
    decreases |claims|
  {
    var first :| first in claims && Total(claims) == claims[first].byteCount + Total(claims - {first});
    if first != digest {
      TotalWithout(claims - {first}, digest);
      TotalWithout(claims - {digest}, first);
      assert claims - {first} - {digest} == claims - {digest} - {first};
    }
  }

  ghost predicate SameSizes(a: map<Digest, Claim>, b: map<Digest, Claim>) {
    a.Keys == b.Keys && forall digest :: digest in a ==> a[digest].byteCount == b[digest].byteCount
  }

  lemma {:induction false} SameSizesSameTotal(a: map<Digest, Claim>, b: map<Digest, Claim>)
    requires SameSizes(a, b)
    ensures Total(a) == Total(b)
    decreases |a|
  {
    if a == map[] {
      assert b == map[];
    } else {
      var digest :| digest in a;
      TotalWithout(a, digest);
      TotalWithout(b, digest);
      SameSizesSameTotal(a - {digest}, b - {digest});
    }
  }

  ghost predicate Balanced(ledger: Ledger) {
    ledger.storageBytes == Total(ledger.claims)
  }

  lemma RecordingBalances(ledger: Ledger, digest: Digest, byteCount: nat)
    requires Balanced(ledger)
    ensures Balanced(Recorded(ledger, digest, byteCount))
  {
    if digest !in ledger.claims {
      var claims := ledger.claims[digest := Claim(byteCount, None)];
      TotalWithout(claims, digest);
      assert claims - {digest} == ledger.claims;
    }
  }

  lemma MarkingBalances(ledger: Ledger, now: int)
    requires Balanced(ledger)
    ensures Balanced(Marked(ledger, now)) && Balanced(Unmarked(ledger)) && Balanced(Pruned(ledger))
  {
    SameSizesSameTotal(ledger.claims, Marked(ledger, now).claims);
    SameSizesSameTotal(ledger.claims, Unmarked(ledger).claims);
  }

  /** The refund's clamp at zero never changes a value: what is refunded was charged. */
  lemma DeletingBalances(ledger: Ledger, digest: Digest)
    requires Balanced(ledger) && digest in ledger.claims
    ensures Balanced(Deleted(ledger, digest))
    ensures Deleted(ledger, digest).storageBytes == ledger.storageBytes - ledger.claims[digest].byteCount
  {
    TotalWithout(ledger.claims, digest);
  }

  // ------------------------------------------------------------------ what pruning leaves

  /** Every reference row's page is stored: the other foreign key of the reference table. */
  ghost predicate PagesStored(store: Store) {
    forall ref :: ref in store.refs ==> Key(Page, ref.pageId) in store.rows
  }

  /**
   After the prune a digest is named exactly when a live page names it, so the foreign key objects to
   deleting nothing that is unreachable, and pruning itself made nothing unreachable.
   */
  lemma PruningLeavesLiveReferences(ledger: Ledger, digest: Digest)
    requires PagesStored(ledger.store)
    ensures Named(Pruned(ledger).store, digest) <==> OnALivePage(ledger.store, digest)
    ensures Reachable(Pruned(ledger).store, digest) <==> Reachable(ledger.store, digest)
  {
    var after := Pruned(ledger).store;
    if OnALivePage(ledger.store, digest) {
      var ref :| ref in ledger.store.refs && ref.digest == digest && LivePage(ledger.store.rows, ref.pageId);
      assert ref in after.refs;
      assert OnALivePage(after, digest);
    }
    if Named(after, digest) {
      var ref :| ref in after.refs && ref.digest == digest;
      assert LivePage(ledger.store.rows, ref.pageId);
    }
  }

  /** What wants bytes: a live page's reference row, or a live attachment row of their digest. */
  lemma WhatWantsBytes(store: Store, digest: Digest)
    ensures Reachable(store, digest) <==>
            || (exists pageId :: PageRef(pageId, digest) in store.refs && Key(Page, pageId) in store.rows &&
                                 store.rows[Key(Page, pageId)].deletedAt == None)
            || (Key(Attachment, digest) in store.rows && store.rows[Key(Attachment, digest)].deletedAt == None)
  {
    if OnALivePage(store, digest) {
      var ref :| ref in store.refs && ref.digest == digest && LivePage(store.rows, ref.pageId);
      assert PageRef(ref.pageId, digest) in store.refs;
    }
    if pageId :| PageRef(pageId, digest) in store.refs && Key(Page, pageId) in store.rows &&
                 store.rows[Key(Page, pageId)].deletedAt == None
    {
      assert LivePage(store.rows, PageRef(pageId, digest).pageId);
    }
  }

  /** After a pass of marking and clearing, the marked claims are exactly the unreachable ones. */
  lemma MarksTellTheUnreachable(ledger: Ledger, now: int, digest: Digest)
    requires digest in ledger.claims
    ensures var after := Unmarked(Marked(ledger, now));
            && digest in after.claims
            && (after.claims[digest].unreferencedSince.Some? <==> !Reachable(ledger.store, digest))
            && (ledger.claims[digest].unreferencedSince.Some? && !Reachable(ledger.store, digest) ==>
                  after.claims[digest] == ledger.claims[digest])
  {
  }
}
