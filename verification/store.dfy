/**
 * The key-value store the pipeline writes to, reduced to the five commands
 * the code issues: HSET, PERSIST, EXPIRE, LRANGE and RPUSH.
 *
 * The store is a value `Db` (keys to hashes or lists, the expiry table, and a
 * script of connection faults), and a `Store` object holding those three
 * fields stands for the client handle that the code passes around and
 * updates.  Each command consumes one entry of the fault script; an entry
 * `true` makes that command fail with a RedisError and leave the data alone.
 * Time does not pass in the model: `ttl[k]` is the expiry last set on `k`.
 */
module Redis {
  import opened Wrappers
  import opened Exc

  datatype Value = Hash(fields: map<string, string>) | List(items: seq<string>)

  const ConnectionLost: PyError := RedisError("Connection closed by server.")
  const WrongType: PyError := RedisError("WRONGTYPE Operation against a key holding the wrong kind of value")

  /** The store after a command, and what the command returned or raised. */
  datatype Reply<T> = Reply(db: Db, result: Result<T>)

  datatype Db = Db(data: map<string, Value>, ttl: map<string, int>, faults: seq<bool>)
  {
    /** Only existing keys carry an expiry, and every expiry is positive. */
    predicate Valid() {
      ttl.Keys <= data.Keys && forall k :: k in ttl ==> ttl[k] > 0
    }

    /** The next command issued will fail on the connection. */
    predicate NextFails() {
      |faults| > 0 && faults[0]
    }

    /** The next `n` commands will not fail on the connection. */
    predicate Healthy(n: nat) {
      forall i :: 0 <= i < n && i < |faults| ==> !faults[i]
    }

    /** The next `n` commands all fail on the connection. */
    predicate Failing(n: nat) {
      |faults| >= n && forall i :: 0 <= i < n ==> faults[i]
    }

    /** The store once one command has been issued. */
    function Next(): (d: Db)
      ensures d.data == data && d.ttl == ttl
    {
      this.(faults := if |faults| > 0 then faults[1..] else [])
    }

    /** HSET key field value ...: set the given fields of a hash, keeping its other fields and its expiry. */
    function Hset(key: string, mapping: map<string, string>): Reply<()> {
      if NextFails() then Reply(Next(), Err(ConnectionLost))
      else if key in data && data[key].List? then Reply(Next(), Err(WrongType))
      else
        var current := if key in data then data[key].fields else map[];
        Reply(Next().(data := data[key := Hash(current + mapping)]), Ok(()))
    }

    /** PERSIST key: drop the expiry; true when there was one. */
    function Persist(key: string): Reply<bool> {
      if NextFails() then Reply(Next(), Err(ConnectionLost))
      else Reply(Next().(ttl := ttl - {key}), Ok(key in ttl))
    }

    /** EXPIRE key seconds: no effect on a missing key; a non-positive timeout deletes the key. */
    function Expire(key: string, seconds: int): Reply<bool> {
      if NextFails() then Reply(Next(), Err(ConnectionLost))
      else if key !in data then Reply(Next(), Ok(false))
      else if seconds <= 0 then Reply(Next().(data := data - {key}, ttl := ttl - {key}), Ok(true))
      else Reply(Next().(ttl := ttl[key := seconds]), Ok(true))
    }

    /** LRANGE key 0 -1: the whole list, empty for a missing key. */
    function Lrange(key: string): Reply<seq<string>> {
      if NextFails() then Reply(Next(), Err(ConnectionLost))
      else if key !in data then Reply(Next(), Ok([]))
      else if data[key].Hash? then Reply(Next(), Err(WrongType))
      else Reply(Next(), Ok(data[key].items))
    }

    /** RPUSH key value: append to the list, creating it when missing; the reply is the new length. */
    function Rpush(key: string, value: string): Reply<nat> {
      if NextFails() then Reply(Next(), Err(ConnectionLost))
      else if key in data && data[key].Hash? then Reply(Next(), Err(WrongType))
      else
        var items := (if key in data then data[key].items else []) + [value];
        Reply(Next().(data := data[key := List(items)]), Ok(|items|))
    }
  }

  /** Every command keeps the store's invariant. */
  lemma CommandsKeepValid(db: Db, key: string, mapping: map<string, string>, seconds: int, value: string)
    requires db.Valid()
    ensures db.Hset(key, mapping).db.Valid() && db.Persist(key).db.Valid()
    ensures db.Expire(key, seconds).db.Valid() && db.Lrange(key).db.Valid()
    ensures db.Rpush(key, value).db.Valid()
  {
  }

  /** A fault-free stretch of `n + 1` commands leaves one of `n` after the first command. */
  lemma NextHealthy(db: Db, n: nat)
    requires db.Healthy(n + 1)
    ensures db.Next().Healthy(n)
  {
    var d := db.Next();
    forall i | 0 <= i < n && i < |d.faults|
      ensures !d.faults[i]
    {
      assert d.faults[i] == db.faults[i + 1];
    }
  }

  /** A run of `n + 1` failing commands leaves a run of `n` after the first, and the same rest. */
  lemma NextFailing(db: Db, n: nat)
    requires db.Failing(n + 1)
    ensures db.NextFails() && db.Next().Failing(n)
    ensures db.Next().faults[n..] == db.faults[n + 1..]
  {
    var d := db.Next();
    forall i | 0 <= i < n
      ensures d.faults[i]
    {
      assert d.faults[i] == db.faults[i + 1];
    }
  }

  /** A connection to the store, as the code holds it: every command updates the fields in place. */
  class Store {
    var data: map<string, Value>
    var ttl: map<string, int>
    var faults: seq<bool>

    function State(): Db
      reads this
    {
      Db(data, ttl, faults)
    }

    constructor (db: Db)
      ensures State() == db
    {
      data, ttl, faults := db.data, db.ttl, db.faults;
    }

    /** Consumes the next entry of the fault script. */
    method TakeFault() returns (failing: bool)
      modifies this
      ensures failing == old(State()).NextFails()
      ensures State() == old(State()).Next()
    {
      failing := |faults| > 0 && faults[0];
      faults := if |faults| > 0 then faults[1..] else [];
    }

    method Hset(key: string, mapping: map<string, string>) returns (r: Result<()>)
      modifies this
      ensures old(State()).Hset(key, mapping) == Reply(State(), r)
    {
      var failing := TakeFault();
      if failing {
        r := Err(ConnectionLost);
      } else if key in data && data[key].List? {
        r := Err(WrongType);
      } else {
        var current := if key in data then data[key].fields else map[];
        data := data[key := Hash(current + mapping)];
        r := Ok(());
      }
    }

    method Persist(key: string) returns (r: Result<bool>)
      modifies this
      ensures old(State()).Persist(key) == Reply(State(), r)
    {
      var failing := TakeFault();
      if failing {
        r := Err(ConnectionLost);
      } else {
        r := Ok(key in ttl);
        ttl := ttl - {key};
      }
    }

    method Expire(key: string, seconds: int) returns (r: Result<bool>)
      modifies this
      ensures old(State()).Expire(key, seconds) == Reply(State(), r)
    {
      var failing := TakeFault();
      if failing {
        r := Err(ConnectionLost);
      } else if key !in data {
        r := Ok(false);
      } else if seconds <= 0 {
        data, ttl := data - {key}, ttl - {key};
        r := Ok(true);
      } else {
        ttl := ttl[key := seconds];
        r := Ok(true);
      }
    }

    method Lrange(key: string) returns (r: Result<seq<string>>)
      modifies this
      ensures old(State()).Lrange(key) == Reply(State(), r)
    {
      var failing := TakeFault();
      if failing {
        r := Err(ConnectionLost);
      } else if key !in data {
        r := Ok([]);
      } else if data[key].Hash? {
        r := Err(WrongType);
      } else {
        r := Ok(data[key].items);
      }
    }

    method Rpush(key: string, value: string) returns (r: Result<nat>)
      modifies this
      ensures old(State()).Rpush(key, value) == Reply(State(), r)
    {
      var failing := TakeFault();
      if failing {
        r := Err(ConnectionLost);
      } else if key in data && data[key].Hash? {
        r := Err(WrongType);
      } else {
        var items := (if key in data then data[key].items else []) + [value];
        data := data[key := List(items)];
        r := Ok(|items|);
      }
    }
  }
}
