/**
 * An in-memory stand-in for the part of a Redis server that the joke store uses:
 * one set (the joke id index, stored under `IndexKey`) and the string keyspace
 * (where the joke bodies live). Every command may fail, as a network round trip
 * can; which calls fail is left open (a nondeterministic choice), and a failed
 * command is taken not to have been applied.
 */
module Redis {
  import opened Wrappers

  /** Redis values are byte strings. */
  newtype byte = x: int | 0 <= x < 256

  /** The errors a go-redis command reports. */
  datatype RedisError =
    | Nil          // redis.Nil: GET of a missing key, SRANDMEMBER of an empty set
    | Unavailable  // any other failure: connection lost, timeout, server error

  /** The key of the set that lists every live joke id. */
  const IndexKey: string := "rs2JokeIdIndex"

  /** Some member of a non-empty set (the witness `:|` needs). */
  lemma Pick<T>(s: set<T>) returns (x: T)
    requires s != {}
    ensures x in s
  {
    x :| x in s;
  }

  class Client {
    /** The members of the set stored at `IndexKey`. */
    var index: set<string>
    /** The string keyspace: key to value. */
    var strings: map<string, seq<byte>>

    /** A client connected to an empty server. */
    constructor ()
      ensures index == {} && strings == map[]
    {
      index := {};
      strings := map[];
    }

    /** SISMEMBER IndexKey member */
    method SIsMember(member: string) returns (r: Result<bool, RedisError>)
      ensures r.Ok? ==> r.value == (member in index)
      ensures r.Err? ==> r.error == Unavailable
    {
      var up: bool := *;
      if up {
        r := Ok(member in index);
      } else {
        r := Err(Unavailable);
      }
    }

    /** SRANDMEMBER IndexKey: some member of the index, or redis.Nil when it is empty. */
    method SRandMember() returns (r: Result<string, RedisError>)
      ensures r.Ok? ==> r.value in index
      ensures index == {} ==> r.Err?
      ensures r == Err(Nil) ==> index == {}
    {
      var up: bool := *;
      if !up {
        return Err(Unavailable);
      }
      var members := index;
      if members == {} {
        return Err(Nil);
      }
      ghost var some := Pick(members);
      var m :| m in members;
      r := Ok(m);
    }

    /** SADD IndexKey member */
    method SAdd(member: string) returns (err: Option<RedisError>)
      modifies this`index
      ensures err.None? ==> index == old(index) + {member}
      ensures err.Some? ==> err.value == Unavailable && index == old(index)
    {
      var up: bool := *;
      if up {
        index := index + {member};
        err := None;
      } else {
        err := Some(Unavailable);
      }
    }

    /** SREM IndexKey member */
    method SRem(member: string) returns (err: Option<RedisError>)
      modifies this`index
      ensures err.None? ==> index == old(index) - {member}
      ensures err.Some? ==> err.value == Unavailable && index == old(index)
    {
      var up: bool := *;
      if up {
        index := index - {member};
        err := None;
      } else {
        err := Some(Unavailable);
      }
    }

    /** GET key: the stored value, or redis.Nil when the key is missing. */
    method Get(key: string) returns (r: Result<seq<byte>, RedisError>)
      ensures r.Ok? ==> key in strings && r.value == strings[key]
      ensures key !in strings ==> r.Err?
      ensures r == Err(Nil) ==> key !in strings
    {
      var up: bool := *;
      if !up {
        r := Err(Unavailable);
      } else if key in strings {
        r := Ok(strings[key]);
      } else {
        r := Err(Nil);
      }
    }

    /** SET key value (no expiry) */
    method Set(key: string, value: seq<byte>) returns (err: Option<RedisError>)
      modifies this`strings
      ensures err.None? ==> strings == old(strings)[key := value]
      ensures err.Some? ==> err.value == Unavailable && strings == old(strings)
    {
      var up: bool := *;
      if up {
        strings := strings[key := value];
        err := None;
      } else {
        err := Some(Unavailable);
      }
    }

    /** DEL key (deleting a missing key is not an error) */
    method Del(key: string) returns (err: Option<RedisError>)
      modifies this`strings
      ensures err.None? ==> strings == old(strings) - {key}
      ensures err.Some? ==> err.value == Unavailable && strings == old(strings)
    {
      var up: bool := *;
      if up {
        strings := strings - {key};
        err := None;
      } else {
        err := Some(Unavailable);
      }
    }
  }
}
