/**
 * The game's `_players` dictionary, keyed by user id: a sequence of players
 * in insertion order, looked up by id. Assigning to an existing key keeps its
 * position; a new key goes at the end.
 */
module Rosters {
  import opened Wrappers
  import opened Players

  type Roster = seq<Player>

  predicate DistinctIds(r: Roster) {
    forall i, j :: 0 <= i < j < |r| ==> r[i].id != r[j].id
  }

  predicate SameIds(a: Roster, b: Roster) {
    |a| == |b| && forall i :: 0 <= i < |a| ==> a[i].id == b[i].id
  }

  /** The position of the first player with this id. */
  function IndexOfId(r: Roster, id: int): (k: Option<nat>)
    ensures k.Some? ==> k.value < |r| && r[k.value].id == id
    ensures k.Some? ==> forall j :: 0 <= j < k.value ==> r[j].id != id
    ensures k.None? ==> forall j :: 0 <= j < |r| ==> r[j].id != id
  {
    if |r| == 0 then None
    else if r[0].id == id then Some(0)
    else match IndexOfId(r[1..], id)
      case None => None
      case Some(k) => Some(k + 1)
  }

  /** `id in players`. */
  predicate Has(r: Roster, id: int) {
    IndexOfId(r, id).Some?
  }

  /** `players[id]`, or `None` when the key is absent. */
  function Lookup(r: Roster, id: int): Option<Player> {
    match IndexOfId(r, id)
    case Some(k) => Some(r[k])
    case None => None
  }

  /** `players[p.id] = p`. */
  function Put(r: Roster, p: Player): (r': Roster)
    ensures |r| <= |r'| && SameIds(r, r'[..|r|])
  {
    match IndexOfId(r, p.id)
    case Some(k) => r[k := p]
    case None => r + [p]
  }

  /** Sets the answer of the player with this id, leaving everyone else alone. */
  function SetAnswer(r: Roster, id: int, a: Option<string>): (r': Roster)
    ensures SameIds(r, r')
  {
    seq(|r|, i requires 0 <= i < |r| => if r[i].id == id then r[i].(answer := a) else r[i])
  }

  /** `_reset_answers`: every player's answer becomes `None`. */
  function ResetAnswers(r: Roster): (r': Roster)
    ensures SameIds(r, r')
    ensures forall i :: 0 <= i < |r'| ==> r'[i] == r[i].(answer := None)
  {
    seq(|r|, i requires 0 <= i < |r| => r[i].(answer := None))
  }

  /**
   * Looked up by id, the reset roster holds the same players with their
   * answers cleared; resetting twice is resetting once.
   */
  lemma LookupResetAnswers(r: Roster, id: int)
    ensures Lookup(ResetAnswers(r), id) ==
              match Lookup(r, id)
              case None => None
              case Some(p) => Some(p.(answer := None))
    ensures ResetAnswers(ResetAnswers(r)) == ResetAnswers(r)
  {
    var r' := ResetAnswers(r);
    match IndexOfId(r, id)
    case None =>
      assert IndexOfId(r', id).None?;
    case Some(k) =>
      IndexOfIdAt(r', id, k);
  }

  lemma IndexOfIdAt(r: Roster, id: int, k: nat)
    requires k < |r| && r[k].id == id
    requires forall j :: 0 <= j < k ==> r[j].id != id
    ensures IndexOfId(r, id) == Some(k)
  {
  }

  lemma {:induction false} SameIdsIndex(a: Roster, b: Roster, id: int)
    requires SameIds(a, b)
    ensures IndexOfId(a, id) == IndexOfId(b, id)
  {
    match IndexOfId(a, id)
    case Some(k) =>
      IndexOfIdAt(b, id, k);
    case None =>
      assert forall j :: 0 <= j < |b| ==> b[j].id != id by {
        forall j | 0 <= j < |b|
          ensures b[j].id != id
        {
          assert a[j].id == b[j].id;
        }
      }
  }

  /** Only the assigned key changes; every other key keeps its player. */
  lemma {:induction false} LookupPut(r: Roster, p: Player, other: int)
    ensures Lookup(Put(r, p), p.id) == Some(p)
    ensures other != p.id ==> Lookup(Put(r, p), other) == Lookup(r, other)
    ensures |Put(r, p)| == if Has(r, p.id) then |r| else |r| + 1
  {
    var r' := Put(r, p);
    match IndexOfId(r, p.id)
    case Some(k) =>
      IndexOfIdAt(r', p.id, k);
      SameIdsIndex(r, r', other);
    case None =>
      IndexOfIdAt(r', p.id, |r|);
      if other != p.id {
        match IndexOfId(r, other)
        case Some(k) =>
          IndexOfIdAt(r', other, k);
        case None =>
          assert forall j :: 0 <= j < |r'| ==> r'[j].id != other;
      }
  }

  /** Assigning a key keeps the keys distinct. */
  lemma PutDistinct(r: Roster, p: Player)
    requires DistinctIds(r)
    ensures DistinctIds(Put(r, p))
  {
  }

  /** Setting one player's answer changes only that player's answer. */
  lemma {:induction false} LookupSetAnswer(r: Roster, id: int, a: Option<string>, other: int)
    ensures Lookup(SetAnswer(r, id, a), other) ==
              if other == id && Lookup(r, id).Some? then Some(Lookup(r, id).value.(answer := a))
              else Lookup(r, other)
  {
    SameIdsIndex(r, SetAnswer(r, id, a), other);
  }

  lemma SameIdsDistinct(a: Roster, b: Roster)
    requires SameIds(a, b) && DistinctIds(a)
    ensures DistinctIds(b)
  {
    assert forall i :: 0 <= i < |a| ==> a[i].id == b[i].id;
  }
}
