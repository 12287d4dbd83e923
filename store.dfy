/**
 * The in-memory user table `usuarios`: a plain object from cpf to
 * `{ nome, data_nascimento }`, filled by the POST handler and read by the
 * two GET handlers.
 *
 * The table is modelled as a map plus the sequence of its keys in the
 * order they were added, which is the order `Object.values` lists them
 * in as long as no key is an array index (see PropertyKeys). A map has
 * no inherited entries: the object in the source inherits from
 * `Object.prototype`, so a lookup of `"constructor"` or `"__proto__"`
 * finds something there and finds nothing here.
 */
module Store {
  import opened Wrappers
  import opened JsValue
  import opened PropertyKeys

  /** What is stored under a cpf and echoed back: the cpf itself is not part of it. */
  datatype UserData = UserData(nome: string, dataNascimento: JsValue)

  /** The contents of the table: entries and their keys in insertion order. */
  datatype Table = Table(users: map<string, UserData>, keys: seq<string>)

  /**
   * The keys are distinct, are exactly the keys of the map, and none is
   * an array index, so that `keys` is the listing order.
   */
  ghost predicate WellFormed(t: Table) {
    && (forall i, j :: 0 <= i < j < |t.keys| ==> t.keys[i] != t.keys[j])
    && (forall k :: k in t.users <==> k in t.keys)
    && (forall k :: k in t.users ==> !IsArrayIndex(k))
  }

  const Empty: Table := Table(map[], [])

  /** `usuarios[cpf]` read through the map. */
  function Lookup(t: Table, cpf: string): Option<UserData> {
    if cpf in t.users then Some(t.users[cpf]) else None
  }

  /**
   * The table after `if (usuarios[cpf]) conflict; else usuarios[cpf] = u`.
   * Every stored value is an object, hence truthy, so the guard is
   * "the key is present".
   */
  function Inserted(t: Table, cpf: string, u: UserData): (r: Table)
    ensures r.users.Keys == t.users.Keys + {cpf}
    ensures forall k :: k in t.users ==> r.users[k] == t.users[k]
  {
    if cpf in t.users then t else Table(t.users[cpf := u], t.keys + [cpf])
  }

  /** The stored values of the given keys, in the order of the keys. */
  function ValuesOf(users: map<string, UserData>, keys: seq<string>): (vs: seq<UserData>)
    requires forall k :: k in keys ==> k in users
    ensures |vs| == |keys|
    ensures forall i :: 0 <= i < |keys| ==> vs[i] == users[keys[i]]
  {
    if keys == [] then [] else ValuesOf(users, keys[..|keys| - 1]) + [users[keys[|keys| - 1]]]
  }

  /** `Object.values(usuarios)`. */
  function Values(t: Table): seq<UserData>
    requires WellFormed(t)
  {
    ValuesOf(t.users, t.keys)
  }

  /**
   * Insertion keeps the table well formed, adds at most the new key,
   * and leaves the value of every other key as it was. A present key
   * makes it change nothing at all.
   */
  lemma InsertedKeepsOthers(t: Table, cpf: string, u: UserData, k: string)
    requires WellFormed(t) && !IsArrayIndex(cpf)
    ensures WellFormed(Inserted(t, cpf, u))
    ensures cpf in t.users ==> Inserted(t, cpf, u) == t
    ensures cpf !in t.users ==> Lookup(Inserted(t, cpf, u), cpf) == Some(u)
    ensures k != cpf ==> Lookup(Inserted(t, cpf, u), k) == Lookup(t, k)
  {
  }

  /** One successful or refused insertion, as the POST handler performs it. */
  datatype Insertion = Insertion(cpf: string, usuario: UserData)

  /** The table after running the insertions in order, starting empty. */
  function Replay(ops: seq<Insertion>): Table {
    if ops == [] then Empty
    else Inserted(Replay(ops[..|ops| - 1]), ops[|ops| - 1].cpf, ops[|ops| - 1].usuario)
  }

  /** Replaying insertions whose keys are not array indices gives a well-formed table. */
  lemma {:induction false} ReplayWellFormed(ops: seq<Insertion>)
    requires forall i :: 0 <= i < |ops| ==> !IsArrayIndex(ops[i].cpf)
    ensures WellFormed(Replay(ops))
  {
    if ops != [] {
      ReplayWellFormed(ops[..|ops| - 1]);
    }
  }

  /** A cpf never inserted is not found. */
  lemma {:induction false} NeverInsertedIsNotFound(ops: seq<Insertion>, cpf: string)
    requires forall i :: 0 <= i < |ops| ==> ops[i].cpf != cpf
    ensures Lookup(Replay(ops), cpf) == None
  {
    if ops != [] {
      NeverInsertedIsNotFound(ops[..|ops| - 1], cpf);
    }
  }

  /**
   * The first insertion under a cpf wins: later ones are conflicts and
   * the cpf keeps the first value.
   */
  lemma {:induction false} FirstInsertionWins(ops: seq<Insertion>, i: nat)
    requires i < |ops|
    requires forall j :: 0 <= j < i ==> ops[j].cpf != ops[i].cpf
    ensures Lookup(Replay(ops), ops[i].cpf) == Some(ops[i].usuario)
  {
    var n := |ops| - 1;
    if i == n {
      NeverInsertedIsNotFound(ops[..n], ops[i].cpf);
    } else {
      FirstInsertionWins(ops[..n], i);
    }
  }

  /** After insertions under distinct cpfs, the keys are those cpfs in insertion order. */
  lemma {:induction false} KeysInInsertionOrder(ops: seq<Insertion>)
    requires forall i, j :: 0 <= i < j < |ops| ==> ops[i].cpf != ops[j].cpf
    ensures |Replay(ops).keys| == |ops|
    ensures forall i :: 0 <= i < |ops| ==> Replay(ops).keys[i] == ops[i].cpf
  {
    if ops != [] {
      var n := |ops| - 1;
      KeysInInsertionOrder(ops[..n]);
      NeverInsertedIsNotFound(ops[..n], ops[n].cpf);
    }
  }

  /**
   * After insertions under distinct cpfs, the listing holds exactly one
   * value per insertion, in the order they were made; with none it is empty.
   */
  lemma ListAfterDistinctInsertions(ops: seq<Insertion>)
    requires forall i :: 0 <= i < |ops| ==> !IsArrayIndex(ops[i].cpf)
    requires forall i, j :: 0 <= i < j < |ops| ==> ops[i].cpf != ops[j].cpf
    ensures WellFormed(Replay(ops))
    ensures |Values(Replay(ops))| == |ops|
    ensures forall i :: 0 <= i < |ops| ==> Values(Replay(ops))[i] == ops[i].usuario
  {
    ReplayWellFormed(ops);
    KeysInInsertionOrder(ops);
    forall i | 0 <= i < |ops| ensures Values(Replay(ops))[i] == ops[i].usuario {
      FirstInsertionWins(ops, i);
    }
  }

  /** The table object, updated in place by the POST handler. */
  class UserStore {
    var users: map<string, UserData>
    var keys: seq<string>

    ghost function Model(): Table
      reads this
    {
      Table(users, keys)
    }

    ghost predicate Valid()
      reads this
    {
      WellFormed(Model())
    }

    /** `const usuarios = {}`. */
    constructor ()
      ensures Valid() && Model() == Empty
    {
      users := map[];
      keys := [];
    }

    /**
     * Insert-if-absent: `created` says whether the key was free; if it
     * was, the entry is added and listed last, otherwise nothing changes.
     */
    method Insert(cpf: string, u: UserData) returns (created: bool)
      requires Valid() && !IsArrayIndex(cpf)
      modifies this
      ensures Valid()
      ensures created <==> cpf !in old(users)
      ensures Model() == Inserted(old(Model()), cpf, u)
    {
      if cpf in users {
        return false;
      }
      users := users[cpf := u];
      keys := keys + [cpf];
      created := true;
    }

    /** `usuarios[cpf]`: the stored value, or nothing. */
    method Get(cpf: string) returns (r: Option<UserData>)
      requires Valid()
      ensures r == Lookup(Model(), cpf)
    {
      if cpf in users {
        r := Some(users[cpf]);
      } else {
        r := None;
      }
    }

    /** `Object.values(usuarios)`: one value per key, in insertion order. */
    method List() returns (vs: seq<UserData>)
      requires Valid()
      ensures vs == Values(Model())
    {
      vs := [];
      var i := 0;
      while i < |keys|
        invariant 0 <= i <= |keys|
        invariant |vs| == i
        invariant forall j :: 0 <= j < i ==> vs[j] == users[keys[j]]
      {
        vs := vs + [users[keys[i]]];
        i := i + 1;
      }
    }
  }
}
