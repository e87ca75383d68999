/**
 * The joke record store: an id index (the Redis set at `IndexKey`) and one
 * body per id (the Redis string at `BodyKey(id)`), kept in lockstep by
 * create and delete, and read by id or at random.
 *
 * Joke bodies are byte strings: Go's `len` of a string counts UTF-8 bytes,
 * and Redis stores bytes. Each operation is a method over a `Redis.Client`
 * whose commands may fail; the contracts say what holds on every outcome.
 */
module JokeStore {
  import opened Wrappers
  import opened Errors
  import opened Redis
  import opened IdAllocator

  /** The longest joke, in bytes, that writeJoke accepts. */
  const MaxJokeLen: nat := 256

  const BodyPrefix: string := "rs1Jokes:"

  /** The key of the Redis string holding the body of joke `id` (`fmt.Sprintf("rs1Jokes:%s", id)`). */
  function BodyKey(id: string): (key: string) {
    BodyPrefix + id
  }

  /** Distinct ids have distinct body keys, so writing one body never touches another. */
  lemma BodyKeyInjective(a: string, b: string)
    ensures BodyKey(a) == BodyKey(b) <==> a == b
  {
    if BodyKey(a) == BodyKey(b) {
      assert a == BodyKey(a)[|BodyPrefix|..];
      assert b == BodyKey(b)[|BodyPrefix|..];
    }
  }

  /** The store invariant: the ids in the index are exactly the ids that have a stored body. */
  ghost predicate Consistent(index: set<string>, strings: map<string, seq<byte>>) {
    forall id :: id in index <==> BodyKey(id) in strings
  }

  /** Adding a fresh id to the index together with its body keeps the store consistent. */
  lemma InsertPreservesConsistent(index: set<string>, strings: map<string, seq<byte>>, id: string, body: seq<byte>)
    requires Consistent(index, strings)
    requires id !in index
    ensures Consistent(index + {id}, strings[BodyKey(id) := body])
  {
    forall other
      ensures other in index + {id} <==> BodyKey(other) in strings[BodyKey(id) := body]
    {
      BodyKeyInjective(other, id);
    }
  }

  /** Removing an id from the index together with its body keeps the store consistent. */
  lemma RemovePreservesConsistent(index: set<string>, strings: map<string, seq<byte>>, id: string)
    requires Consistent(index, strings)
    ensures Consistent(index - {id}, strings - {BodyKey(id)})
  {
    forall other
      ensures other in index - {id} <==> BodyKey(other) in strings - {BodyKey(id)}
    {
      BodyKeyInjective(other, id);
    }
  }

  /** The index gained exactly one id, a well-formed one it did not have: an index entry with no body yet. */
  ghost predicate GainedOne(before: set<string>, after: set<string>) {
    exists id :: IsId(id) && id !in before && after == before + {id}
  }

  /**
   * writeJoke: reject a joke longer than MaxJokeLen bytes before touching the
   * store; otherwise allocate an id, add it to the index, then store the body.
   * `used` is the number of random draws the allocation consumed.
   */
  method WriteJoke(client: Client, joke: seq<byte>, rolls: seq<Draw>) returns (r: Result<string, Error>, used: nat)
    modifies client
    ensures used <= |rolls|
    ensures |joke| > MaxJokeLen <==> r == Err(InputValidation(JokeTooLong))
    ensures |joke| > MaxJokeLen ==> used == 0 && client.index == old(client.index) && client.strings == old(client.strings)
    ensures r.Ok? ==> Allocate(old(client.index), rolls, 0) == Some((r.value, used))
    ensures r.Ok? ==> IsId(r.value) && r.value !in old(client.index)
    ensures r.Ok? ==> client.index == old(client.index) + {r.value} && |client.index| == |old(client.index)| + 1
    ensures r.Ok? ==> client.strings == old(client.strings)[BodyKey(r.value) := joke]
    ensures r.Ok? && Consistent(old(client.index), old(client.strings)) ==> Consistent(client.index, client.strings)
    ensures r.Err? ==> r.error == InputValidation(JokeTooLong) || r.error == IdSpaceExhausted || r.error == Store(Unavailable)
    ensures r.Err? ==> client.strings == old(client.strings)
    ensures r.Err? ==> client.index == old(client.index) || GainedOne(old(client.index), client.index)
    ensures r.Err? && Consistent(old(client.index), old(client.strings)) ==>
      forall x :: x in client.index && x !in old(client.index) ==> BodyKey(x) !in client.strings
  {
    if |joke| > MaxJokeLen {
      return Err(InputValidation(JokeTooLong)), 0;
    }
    var id;
    id, used := GenerateId(client, rolls);
    if id.Err? {
      return Err(id.error), used;
    }
    var added := client.SAdd(id.value);
    if added.Some? {
      return Err(Store(added.value)), used;
    }
    var stored := client.Set(BodyKey(id.value), joke);
    if stored.Some? {
      assert IsId(id.value) && id.value !in old(client.index) && client.index == old(client.index) + {id.value};
      return Err(Store(stored.value)), used;
    }
    if Consistent(old(client.index), old(client.strings)) {
      InsertPreservesConsistent(old(client.index), old(client.strings), id.value, joke);
    }
    r := Ok(id.value);
  }

  /**
   * The `GET /jokes/:joke_id` handler: check that the id is in the index and
   * only then fetch its body.
   */
  method GetJokeById(client: Client, id: string) returns (r: Result<seq<byte>, Error>)
    ensures r.Ok? ==> id in client.index && BodyKey(id) in client.strings && r.value == client.strings[BodyKey(id)]
    ensures id !in client.index ==> r == Err(NoJokeWithId) || r == Err(Store(Unavailable))
    ensures r == Err(NoJokeWithId) ==> id !in client.index
    ensures r == Err(Store(Nil)) ==> id in client.index && BodyKey(id) !in client.strings
    ensures id in client.index && Consistent(client.index, client.strings) ==> r.Ok? || r == Err(Store(Unavailable))
    ensures r.Err? ==> r.error in {NoJokeWithId, Store(Nil), Store(Unavailable)}
  {
    var isIdExisting := client.SIsMember(id);
    if isIdExisting.Err? {
      return Err(Store(isIdExisting.error));
    }
    if !isIdExisting.value {
      return Err(NoJokeWithId);
    }
    var joke := client.Get(BodyKey(id));
    if joke.Err? {
      assert joke.error == Nil || joke.error == Unavailable;
      return Err(Store(joke.error));
    }
    r := Ok(joke.value);
  }

  /** The `GET /` handler: pick some id of the index, then fetch its body. */
  method GetRandomJoke(client: Client) returns (r: Result<(string, seq<byte>), Error>)
    ensures r.Ok? ==> r.value.0 in client.index && BodyKey(r.value.0) in client.strings
    ensures r.Ok? ==> r.value.1 == client.strings[BodyKey(r.value.0)]
    ensures client.index == {} ==> r.Err?
    ensures r.Err? ==> r.error == Store(Nil) || r.error == Store(Unavailable)
    ensures Consistent(client.index, client.strings) && r == Err(Store(Nil)) ==> client.index == {}
    ensures Consistent(client.index, client.strings) && client.index != {} ==> r.Ok? || r == Err(Store(Unavailable))
  {
    var id := client.SRandMember();
    if id.Err? {
      assert id.error == Nil || id.error == Unavailable;
      return Err(Store(id.error));
    }
    var joke := client.Get(BodyKey(id.value));
    if joke.Err? {
      assert joke.error == Nil || joke.error == Unavailable;
      return Err(Store(joke.error));
    }
    r := Ok((id.value, joke.value));
  }

  /**
   * The `DELETE /jokes` handler: check that the id is in the index, remove it
   * from the index, then delete its body.
   */
  method DeleteJoke(client: Client, id: string) returns (r: Result<(), Error>)
    modifies client
    ensures id !in old(client.index) ==> r == Err(NoJokeWithId) || r == Err(Store(Unavailable))
    ensures r == Err(NoJokeWithId) ==> id !in old(client.index)
    ensures id !in old(client.index) ==> client.index == old(client.index) && |client.index| == |old(client.index)|
    ensures r.Ok? ==> id in old(client.index) && client.index == old(client.index) - {id}
    ensures r.Ok? ==> |client.index| == |old(client.index)| - 1
    ensures r.Ok? ==> client.strings == old(client.strings) - {BodyKey(id)}
    ensures r.Ok? && Consistent(old(client.index), old(client.strings)) ==> Consistent(client.index, client.strings)
    ensures r.Err? ==> r.error == NoJokeWithId || r.error == Store(Unavailable)
    ensures r.Err? ==> client.strings == old(client.strings)
    ensures r.Err? ==> client.index == old(client.index) || (id in old(client.index) && client.index == old(client.index) - {id})
  {
    var isIdExisting := client.SIsMember(id);
    if isIdExisting.Err? {
      return Err(Store(isIdExisting.error));
    }
    if !isIdExisting.value {
      return Err(NoJokeWithId);
    }
    var removed := client.SRem(id);
    if removed.Some? {
      return Err(Store(removed.value));
    }
    var deleted := client.Del(BodyKey(id));
    if deleted.Some? {
      return Err(Store(deleted.value));
    }
    if Consistent(old(client.index), old(client.strings)) {
      RemovePreservesConsistent(old(client.index), old(client.strings), id);
    }
    r := Ok(());
  }

  /** The UTF-8 encoding of one rune: the bytes a Go string literal holds for it. */
  function EncodeRune(c: char): (bs: seq<byte>)
    ensures 1 <= |bs| <= 4
  {
    var n := c as int;
    if n < 0x80 then [n as byte]
    else if n < 0x800 then [(0xC0 + n / 0x40) as byte, (0x80 + n % 0x40) as byte]
    else if n < 0x10000 then [(0xE0 + n / 0x1000) as byte, (0x80 + n / 0x40 % 0x40) as byte, (0x80 + n % 0x40) as byte]
    else [(0xF0 + n / 0x40000) as byte, (0x80 + n / 0x1000 % 0x40) as byte, (0x80 + n / 0x40 % 0x40) as byte, (0x80 + n % 0x40) as byte]
  }

  /** The UTF-8 bytes of a string: what Go's `len` counts. */
  function Utf8(s: string): (bs: seq<byte>)
    ensures |s| <= |bs| <= 4 * |s|
  {
    if s == [] then [] else EncodeRune(s[0]) + Utf8(s[1..])
  }

  /** A string every character of which is ASCII. */
  ghost predicate Ascii(s: string) {
    forall i :: 0 <= i < |s| ==> s[i] < 0x80 as char
  }

  /** A string of ASCII characters encodes to one byte per character, each the character's own code. */
  lemma {:induction false} Utf8Ascii(s: string)
    requires Ascii(s)
    ensures |Utf8(s)| == |s|
    ensures forall i :: 0 <= i < |s| ==> Utf8(s)[i] == s[i] as int as byte
  {
    if s != [] {
      Utf8Ascii(s[1..]);
    }
  }

  /** The jokes the database is seeded with. */
  const BuiltInJokes: seq<string> := [
    "Today I made my first money as a programmer. I sold my laptop.",
    "A programmer was arrested for writing unreadable code. He refused to comment.",
    "Why do Java programmers have to wear glasses? Because they don't C#.",
    "When your hammer is C++, everything begins to look like a thumb.",
    "To understand what recursion is, you must first understand recursion.",
    "There are 2 hard problems in computer science: caching, naming, and off-by-1 errors.",
    "How does a programmer confuse a mathematician? x = x + 1",
    "Why does a programmer prefer dark mode? Because light attracts bugs.",
    "My programmer friend said I have a high IQ. He said it's 404",
    "JavaScript. That's the entire joke.",
    "I would make a UDP joke, but you might not get it.",
    "Why did the Python data scientist get arrested at customs? She was caught trying to import pandas!",
    "What's the cutest Linux distribution? UwUbuntu.",
    "When I wrote this code, only me and God knew how it works. Now only God knows...",
    "Give a man a program, frustrate him for a day. Teach a man to program, frustrate him for a lifetime.",
    "Debugging is like being the detective in a crime movie where you???re also the murderer.",
    "!false (It???s funny because it???s true.)",
    "Why do programmers always mix up Christmas and Halloween? Because Dec 25 is Oct 31.",
    "#muscles { display: flex; }"
  ]

  ghost predicate Distinct(ids: seq<string>) {
    forall a, b :: 0 <= a < b < |ids| ==> ids[a] != ids[b]
  }

  ghost function Elements(ids: seq<string>): (members: set<string>) {
    set id | id in ids
  }

  ghost function BodyKeys(ids: seq<string>): (keys: set<string>) {
    set id | id in ids :: BodyKey(id)
  }

  /** The keyspace after storing joke `jokes[0]` under `ids[0]`, then `jokes[1]` under `ids[1]`, and so on. */
  ghost function Written(strings: map<string, seq<byte>>, ids: seq<string>, jokes: seq<string>): (written: map<string, seq<byte>>)
    requires |ids| == |jokes|
    decreases |ids|
  {
    if ids == [] then strings
    else
      var last := |ids| - 1;
      Written(strings, ids[..last], jokes[..last])[BodyKey(ids[last]) := Utf8(jokes[last])]
  }

  /** After a run of writes under distinct ids, each id's body is the encoding of the joke written for it. */
  lemma {:induction false} WrittenAt(strings: map<string, seq<byte>>, ids: seq<string>, jokes: seq<string>, i: nat)
    requires |ids| == |jokes| && Distinct(ids) && i < |ids|
    ensures BodyKey(ids[i]) in Written(strings, ids, jokes)
    ensures Written(strings, ids, jokes)[BodyKey(ids[i])] == Utf8(jokes[i])
    decreases |ids|
  {
    var last := |ids| - 1;
    if i < last {
      WrittenAt(strings, ids[..last], jokes[..last], i);
      BodyKeyInjective(ids[i], ids[last]);
    }
  }

  /** A run of writes adds exactly the body keys of its ids and leaves every other key as it was. */
  lemma {:induction false} WrittenOthers(strings: map<string, seq<byte>>, ids: seq<string>, jokes: seq<string>)
    requires |ids| == |jokes|
    ensures Written(strings, ids, jokes).Keys == strings.Keys + BodyKeys(ids)
    ensures forall k :: k in strings && k !in BodyKeys(ids) ==> Written(strings, ids, jokes)[k] == strings[k]
    decreases |ids|
  {
    if ids != [] {
      var last := |ids| - 1;
      WrittenOthers(strings, ids[..last], jokes[..last]);
      assert ids == ids[..last] + [ids[last]];
      assert BodyKeys(ids) == BodyKeys(ids[..last]) + {BodyKey(ids[last])};
    }
  }

  /**
   * The state after writing `jokes` under the fresh, well-formed, distinct
   * `ids`, one after another, starting from `index0` and `strings0`.
   */
  ghost predicate SeededWith(index0: set<string>, strings0: map<string, seq<byte>>,
                             index: set<string>, strings: map<string, seq<byte>>,
                             ids: seq<string>, jokes: seq<string>)
  {
    && |ids| == |jokes|
    && Distinct(ids)
    && (forall a :: 0 <= a < |ids| ==> IsId(ids[a]) && ids[a] !in index0)
    && index == index0 + Elements(ids)
    && strings == Written(strings0, ids, jokes)
  }

  /** One more successful writeJoke, of the next joke, extends the run by its id. */
  lemma SeedStep(index0: set<string>, strings0: map<string, seq<byte>>,
                 index: set<string>, strings: map<string, seq<byte>>,
                 index': set<string>, strings': map<string, seq<byte>>,
                 ids: seq<string>, jokes: seq<string>, i: nat, id: string)
    requires i < |jokes| && SeededWith(index0, strings0, index, strings, ids, jokes[..i])
    requires IsId(id) && id !in index
    requires index' == index + {id} && strings' == strings[BodyKey(id) := Utf8(jokes[i])]
    ensures SeededWith(index0, strings0, index', strings', ids + [id], jokes[..i + 1])
  {
    var ids' := ids + [id];
    assert ids'[..|ids|] == ids && jokes[..i + 1][..i] == jokes[..i];
    assert Elements(ids') == Elements(ids) + {id};
  }

  /** Distinct ids that are all new to `index0` grow it by exactly their number. */
  lemma {:induction false} FreshCard(index0: set<string>, ids: seq<string>)
    requires Distinct(ids) && forall a :: 0 <= a < |ids| ==> ids[a] !in index0
    ensures |index0 + Elements(ids)| == |index0| + |ids|
  {
    if ids != [] {
      var last := |ids| - 1;
      FreshCard(index0, ids[..last]);
      assert ids == ids[..last] + [ids[last]];
      assert Elements(ids) == Elements(ids[..last]) + {ids[last]};
      assert ids[last] !in index0 + Elements(ids[..last]);
    }
  }

  /** A run of successful writes from a consistent store leaves it consistent. */
  lemma {:induction false} SeededConsistent(index0: set<string>, strings0: map<string, seq<byte>>,
                                            index: set<string>, strings: map<string, seq<byte>>,
                                            ids: seq<string>, jokes: seq<string>)
    requires Consistent(index0, strings0)
    requires SeededWith(index0, strings0, index, strings, ids, jokes)
    ensures Consistent(index, strings)
    decreases |ids|
  {
    if ids != [] {
      var last := |ids| - 1;
      var ids', jokes' := ids[..last], jokes[..last];
      assert ids == ids' + [ids[last]];
      assert Elements(ids) == Elements(ids') + {ids[last]};
      SeededConsistent(index0, strings0, index0 + Elements(ids'), Written(strings0, ids', jokes'), ids', jokes');
      InsertPreservesConsistent(index0 + Elements(ids'), Written(strings0, ids', jokes'), ids[last], Utf8(jokes[last]));
    }
  }

  /** Every joke of `jokes` passes writeJoke's length check. */
  ghost predicate AllFit(jokes: seq<string>) {
    forall j :: 0 <= j < |jokes| ==> |Utf8(jokes[j])| <= MaxJokeLen
  }

  /** A joke that fits extends a run of jokes that fit. */
  lemma FitStep(jokes: seq<string>, i: nat)
    requires i < |jokes| && AllFit(jokes[..i]) && |Utf8(jokes[i])| <= MaxJokeLen
    ensures AllFit(jokes[..i + 1])
  {
    assert forall j :: 0 <= j < i ==> jokes[..i + 1][j] == jokes[..i][j];
  }

  /** The jokes before position `i` fit when the prefix of length `i` does. */
  lemma FitPrefix(jokes: seq<string>, i: nat)
    requires i <= |jokes| && AllFit(jokes[..i])
    ensures forall j :: 0 <= j < i ==> |Utf8(jokes[j])| <= MaxJokeLen
  {
    assert forall j :: 0 <= j < i ==> jokes[..i][j] == jokes[j];
  }

  /**
   * The loop of populateDbWithJokes: write `jokes` one after another,
   * stopping at the first error. `ids` (ghost) are the ids of the jokes
   * written so far, in order; `used` is the number of random draws consumed.
   */
  method WriteJokes(client: Client, jokes: seq<string>, rolls: seq<Draw>) returns (err: Option<Error>, ghost ids: seq<string>, used: nat)
    modifies client
    ensures used <= |rolls|
    ensures err.None? ==> |ids| == |jokes|
    ensures err.Some? ==> |ids| < |jokes|
    ensures err.None? ==> SeededWith(old(client.index), old(client.strings), client.index, client.strings, ids, jokes)
    ensures err.None? ==> |client.index| == |old(client.index)| + |jokes|
    ensures err.None? && Consistent(old(client.index), old(client.strings)) ==> Consistent(client.index, client.strings)
    ensures err.Some? ==> client.strings == Written(old(client.strings), ids, jokes[..|ids|])
    ensures err.Some? ==> client.index == old(client.index) + Elements(ids) || GainedOne(old(client.index) + Elements(ids), client.index)
    ensures err.Some? ==> err.value in {InputValidation(JokeTooLong), IdSpaceExhausted, Store(Unavailable)}
    ensures err.Some? ==> (err.value.InputValidation? <==> |Utf8(jokes[|ids|])| > MaxJokeLen)
    ensures forall j :: 0 <= j < |ids| ==> |Utf8(jokes[j])| <= MaxJokeLen
    ensures err.Some? ==> Distinct(ids) && forall a :: 0 <= a < |ids| ==> IsId(ids[a]) && ids[a] !in old(client.index)
  {
    ids, used := [], 0;
    for i := 0 to |jokes|
      invariant i == |ids| && used <= |rolls|
      invariant SeededWith(old(client.index), old(client.strings), client.index, client.strings, ids, jokes[..i])
      invariant AllFit(jokes[..i])
    {
      ghost var index, strings := client.index, client.strings;
      var r, n := WriteJoke(client, Utf8(jokes[i]), rolls[used..]);
      if r.Err? {
        assert r.error.InputValidation? <==> |Utf8(jokes[i])| > MaxJokeLen;
        FitPrefix(jokes, i);
        return Some(r.error), ids, used + n;
      }
      FitStep(jokes, i);
      SeedStep(old(client.index), old(client.strings), index, strings, client.index, client.strings, ids, jokes, i, r.value);
      ids, used := ids + [r.value], used + n;
    }
    assert jokes[..|jokes|] == jokes;
    FitPrefix(jokes, |jokes|);
    FreshCard(old(client.index), ids);
    if Consistent(old(client.index), old(client.strings)) {
      SeededConsistent(old(client.index), old(client.strings), client.index, client.strings, ids, jokes);
    }
    err := None;
  }

  /** populateDbWithJokes: seed the store with the built-in jokes. */
  method PopulateDbWithJokes(client: Client, rolls: seq<Draw>) returns (err: Option<Error>, ghost ids: seq<string>, used: nat)
    modifies client
    ensures used <= |rolls|
    ensures err.None? ==> |ids| == |BuiltInJokes| == 19
    ensures err.Some? ==> |ids| < |BuiltInJokes|
    ensures err.None? ==> SeededWith(old(client.index), old(client.strings), client.index, client.strings, ids, BuiltInJokes)
    ensures err.None? ==> |client.index| == |old(client.index)| + 19
    ensures err.None? && Consistent(old(client.index), old(client.strings)) ==> Consistent(client.index, client.strings)
    ensures err.Some? ==> client.strings == Written(old(client.strings), ids, BuiltInJokes[..|ids|])
    ensures err.Some? ==> client.index == old(client.index) + Elements(ids) || GainedOne(old(client.index) + Elements(ids), client.index)
    ensures err.Some? ==> err.value in {InputValidation(JokeTooLong), IdSpaceExhausted, Store(Unavailable)}
    ensures err.Some? ==> (err.value.InputValidation? <==> |Utf8(BuiltInJokes[|ids|])| > MaxJokeLen)
    ensures forall j :: 0 <= j < |ids| ==> |Utf8(BuiltInJokes[j])| <= MaxJokeLen
    ensures err.Some? ==> Distinct(ids) && forall a :: 0 <= a < |ids| ==> IsId(ids[a]) && ids[a] !in old(client.index)
  {
    assert |BuiltInJokes| == 19;
    err, ids, used := WriteJokes(client, BuiltInJokes, rolls);
  }

  /**
   * A client of the operations above, run in sequence on one joke: create
   * it, read it back twice, delete it, and read it again. The later steps
   * run only when the create succeeds (None: not run).
   */
  method CreateReadDelete(client: Client, joke: seq<byte>, rolls: seq<Draw>)
    returns (created: Result<string, Error>, read: Option<Result<seq<byte>, Error>>,
             reread: Option<Result<seq<byte>, Error>>, deleted: Option<Result<(), Error>>,
             afterDelete: Option<Result<seq<byte>, Error>>)
    modifies client
    ensures |joke| > MaxJokeLen ==> created == Err(InputValidation(JokeTooLong))
    ensures created.Err? ==> read.None? && reread.None? && deleted.None? && afterDelete.None?
    ensures created.Ok? ==> IsId(created.value) && read.Some? && reread.Some? && deleted.Some? && afterDelete.Some?
    ensures created.Ok? ==> read.value.Ok? || read.value == Err(Store(Unavailable))
    ensures created.Ok? && read.value.Ok? ==> read.value.value == joke
    ensures created.Ok? && read.value.Ok? && reread.value.Ok? ==> read.value.value == reread.value.value
    ensures created.Ok? ==> deleted.value.Ok? || deleted.value == Err(Store(Unavailable))
    ensures created.Ok? && deleted.value.Ok? ==> afterDelete.value == Err(NoJokeWithId) || afterDelete.value == Err(Store(Unavailable))
    ensures created.Ok? && deleted.value.Ok? && Consistent(old(client.index), old(client.strings)) ==>
      Consistent(client.index, client.strings)
  {
    var n;
    created, n := WriteJoke(client, joke, rolls);
    if created.Err? {
      return created, None, None, None, None;
    }
    var id := created.value;
    var r1 := GetJokeById(client, id);
    var r2 := GetJokeById(client, id);
    var d := DeleteJoke(client, id);
    var r3 := GetJokeById(client, id);
    return created, Some(r1), Some(r2), Some(d), Some(r3);
  }
}
