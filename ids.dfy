/**
 * Joke id allocation: draw an 8-character candidate from a 62-character
 * alphabet, ask the index whether it is taken, and retry until it is not.
 *
 * The random numbers are not generated here: the caller supplies the stream
 * `rolls` of values that `rand.Intn(len(letters))` would return, in order.
 * Each attempt consumes `IdLen` of them; a stream too short for another
 * attempt ends the search with `IdSpaceExhausted`.
 */
module IdAllocator {
  import opened Wrappers
  import opened Errors
  import Redis

  /** ID_LEN */
  const IdLen: nat := 8

  /** The alphabet ids are drawn from. */
  const Letters: string := "abcdefghijklmnopqrstuvwxyzABCDEFGHIJKLMNOPQRSTUVWXYZ0123456789"

  /** A value `rand.Intn(len(letters))` can return: an index into `Letters`. */
  type Draw = d: int | 0 <= d < 62

  /** The shape of every id the allocator hands out. */
  predicate IsId(s: string) {
    |s| == IdLen && forall i :: 0 <= i < |s| ==> s[i] in Letters
  }

  /** The rune slice the draws `ds` fill in, as a string. */
  function Render(ds: seq<Draw>): (id: string) {
    seq(|ds|, i requires 0 <= i < |ds| => Letters[ds[i]])
  }

  /** The candidate an attempt starting at draw number `pos` builds. */
  function CandidateAt(rolls: seq<Draw>, pos: nat): (id: string)
    requires pos + IdLen <= |rolls|
  {
    Render(rolls[pos..pos + IdLen])
  }

  /**
   * The reference definition of allocation: trying the attempts that start
   * at `pos`, `pos + IdLen`, ..., the first candidate absent from `index`,
   * together with the number of draws consumed up to and including it; None
   * when the stream runs out first.
   */
  function Allocate(index: set<string>, rolls: seq<Draw>, pos: nat): (found: Option<(string, nat)>)
    requires pos <= |rolls|
    decreases |rolls| - pos
  {
    if |rolls| - pos < IdLen then None
    else if CandidateAt(rolls, pos) !in index then Some((CandidateAt(rolls, pos), pos + IdLen))
    else Allocate(index, rolls, pos + IdLen)
  }

  lemma RenderIsId(ds: seq<Draw>)
    requires |ds| == IdLen
    ensures IsId(Render(ds))
  {
  }

  /**
   * What Allocate finds is a well-formed id that is not in the index, built
   * from the last `IdLen` draws it consumed, and every earlier attempt built
   * a candidate that was already in the index.
   */
  lemma {:induction false} AllocateFresh(index: set<string>, rolls: seq<Draw>, pos: nat)
    requires pos <= |rolls|
    requires Allocate(index, rolls, pos).Some?
    ensures var (id, end) := Allocate(index, rolls, pos).value;
      && IsId(id)
      && id !in index
      && pos + IdLen <= end <= |rolls|
      && (end - pos) % IdLen == 0
      && id == CandidateAt(rolls, end - IdLen)
      && forall k :: pos <= k < end - IdLen && (k - pos) % IdLen == 0 ==> CandidateAt(rolls, k) in index
    decreases |rolls| - pos
  {
    RenderIsId(rolls[pos..pos + IdLen]);
    if CandidateAt(rolls, pos) in index {
      AllocateFresh(index, rolls, pos + IdLen);
    }
  }

  /** Allocate finds nothing exactly when every attempt the stream allows builds a taken candidate. */
  lemma {:induction false} AllocateExhausted(index: set<string>, rolls: seq<Draw>, pos: nat)
    requires pos <= |rolls|
    ensures Allocate(index, rolls, pos).None? <==>
      forall k :: pos <= k && k + IdLen <= |rolls| && (k - pos) % IdLen == 0 ==> CandidateAt(rolls, k) in index
    decreases |rolls| - pos
  {
    if |rolls| - pos >= IdLen && CandidateAt(rolls, pos) in index {
      AllocateExhausted(index, rolls, pos + IdLen);
    }
  }

  /** One attempt's inner loop: fill a fresh rune slice of length IdLen from the draws at `pos`. */
  method DrawCandidate(rolls: seq<Draw>, pos: nat) returns (id: string)
    requires pos + IdLen <= |rolls|
    ensures IsId(id) && id == CandidateAt(rolls, pos)
  {
    var runes := new char[IdLen];
    for i := 0 to IdLen
      invariant forall k :: 0 <= k < i ==> runes[k] == Letters[rolls[pos + k]]
    {
      runes[i] := Letters[rolls[pos + i]];
    }
    id := runes[..];
    RenderIsId(rolls[pos..pos + IdLen]);
  }

  /**
   * generateId: the first candidate the index reports absent, and the number
   * of draws consumed. A failed membership check ends the search with that
   * error.
   */
  method GenerateId(client: Redis.Client, rolls: seq<Draw>) returns (r: Result<string, Error>, used: nat)
    ensures used <= |rolls| && used % IdLen == 0
    ensures r.Ok? ==> Allocate(client.index, rolls, 0) == Some((r.value, used))
    ensures r.Ok? ==> IsId(r.value) && r.value !in client.index
    ensures r == Err(IdSpaceExhausted) ==> Allocate(client.index, rolls, 0).None?
    ensures Allocate(client.index, rolls, 0).None? ==> r.Err?
    ensures r.Err? ==> r.error == IdSpaceExhausted || r.error == Store(Redis.Unavailable)
  {
    var pos := 0;
    while pos + IdLen <= |rolls|
      invariant pos <= |rolls| && pos % IdLen == 0
      invariant Allocate(client.index, rolls, pos) == Allocate(client.index, rolls, 0)
      decreases |rolls| - pos
    {
      var id := DrawCandidate(rolls, pos);
      var taken := client.SIsMember(id);
      if taken.Err? {
        return Err(Store(taken.error)), pos + IdLen;
      }
      if !taken.value {
        return Ok(id), pos + IdLen;
      }
      pos := pos + IdLen;
    }
    return Err(IdSpaceExhausted), pos;
  }
}
