/** The byte-range lock table of one file, as the operating system keeps it.
    This is the environment of the two locking protocols: it is stated, not proved. */
module ByteLocks {

  /** An open file handle. */
  type Id = nat

  datatype Range = Range(offset: nat, length: nat)

  datatype Held = Held(range: Range, exclusive: bool)

  /** The locks of every open handle. A lock taken twice is held twice. */
  type Table = map<Id, multiset<Held>>

  predicate Overlap(a: Range, b: Range) {
    a.offset < b.offset + b.length && b.offset < a.offset + a.length
  }

  /** Two overlapping locks exclude one another unless both are shared. */
  predicate Clash(a: Held, b: Held) {
    Overlap(a.range, b.range) && (a.exclusive || b.exclusive)
  }

  /** A request is refused when it clashes with any lock, of any handle. */
  predicate Refused(t: Table, want: Held) {
    exists id | id in t :: exists h | h in t[id] :: Clash(h, want)
  }

  function Lock(t: Table, id: Id, want: Held): Table
    requires id in t
  {
    if Refused(t, want) then t else t[id := t[id] + multiset{want}]
  }

  /** An unlock names the exact range of a lock of this handle. */
  predicate CanUnlock(t: Table, id: Id, range: Range)
    requires id in t
  {
    Held(range, true) in t[id] || Held(range, false) in t[id]
  }

  /** Of two locks on one range the exclusive one goes first. */
  function Unlock(t: Table, id: Id, range: Range): Table
    requires id in t
  {
    if Held(range, true) in t[id] then t[id := t[id] - multiset{Held(range, true)}]
    else t[id := t[id] - multiset{Held(range, false)}]
  }

  /** No two handles hold clashing locks. */
  ghost predicate Compatible(t: Table) {
    forall a, b, x, y | a in t && b in t && a != b && x in t[a] && y in t[b] :: !Clash(x, y)
  }

  lemma LockKeepsCompatible(t: Table, id: Id, want: Held)
    requires id in t && Compatible(t)
    ensures Compatible(Lock(t, id, want))
  {
    var t' := Lock(t, id, want);
    forall a, b, x, y | a in t' && b in t' && a != b && x in t'[a] && y in t'[b]
      ensures !Clash(x, y)
    {
      assert x in t[a] || (a == id && x == want);
      assert y in t[b] || (b == id && y == want);
    }
  }

  lemma UnlockKeepsCompatible(t: Table, id: Id, range: Range)
    requires id in t && Compatible(t)
    ensures Compatible(Unlock(t, id, range))
  {
    var t' := Unlock(t, id, range);
    forall a, b, x, y | a in t' && b in t' && a != b && x in t'[a] && y in t'[b]
      ensures !Clash(x, y)
    {
      assert x in t[a] && y in t[b];
    }
  }

  lemma NewKeepsCompatible(t: Table, id: Id)
    requires Compatible(t)
    ensures Compatible(t[id := multiset{}])
  {
  }

  lemma CloseKeepsCompatible(t: Table, id: Id)
    requires Compatible(t)
    ensures Compatible(t - {id})
  {
  }
}
