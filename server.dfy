/**
 * The pet store service (server/server.py): five request handlers over the
 * list of pets kept in the service's data file.
 *
 * Every handler loads the list, works on it and, when it changed it, saves
 * it back; here the list is the field `animals` of a `PetStore` object and
 * loading and saving are reads and writes of that field. A pet is whatever
 * JSON value the list holds (normally an object keyed by "Имя", the name).
 * Request bodies are JSON values as `request.get_json()` returns them, None
 * when there is none. An exception inside a handler (a pet without "Имя", a
 * body of the wrong shape) is answered by the web framework with status
 * 500, and the data file is then left as it was.
 */
module Server {
  import opened Wrappers
  import opened PyStrings

  /** A JSON value as the standard `json` module decodes it (numbers are integers here). */
  datatype Json =
    | Null
    | Bool(b: bool)
    | Int(i: int)
    | Str(s: string)
    | Array(items: seq<Json>)
    | Object(fields: map<string, Json>)

  /** The key by which pets are found. */
  const NAME: string := "Имя"

  /** The fields `create_pet` demands, in the order it checks them. */
  const REQUIRED: seq<string> := ["Животное", "Имя", "Возраст", "Цвет глаз", "Есть ли дети"]

  /** A reply: its status and its JSON body; None is the framework's own page for status 500. */
  datatype Reply = Reply(status: nat, body: Option<Json>)

  /** `jsonify({"error": message}), status`. */
  function ErrorReply(message: string, status: nat): Reply
  {
    Reply(status, Some(Object(map["error" := Str(message)])))
  }

  /** The reply to an uncaught exception. */
  const INTERNAL_ERROR: Reply := Reply(500, None)

  const NOT_FOUND: Reply := ErrorReply("Питомец не найден", 404)

  /** The data file after a request, and the reply. */
  datatype Outcome = Outcome(store: seq<Json>, reply: Reply)

  // ---------------------------------------------------------------------
  // Python's view of JSON values
  // ---------------------------------------------------------------------

  /** Python truthiness: `not value` holds exactly for null, false, 0, "", [] and {}. */
  predicate Truthy(j: Json)
    ensures !Truthy(j) <==> j in {Null, Bool(false), Int(0), Str(""), Array([]), Object(map[])}
  {
    match j
      case Null => false
      case Bool(b) => b
      case Int(i) => i != 0
      case Str(s) => s != ""
      case Array(xs) => xs != []
      case Object(m) => m != map[]
  }

  /** The numeric value of a number or a boolean (`True == 1` in Python). */
  function Num(j: Json): int
  {
    match j
      case Bool(b) => if b then 1 else 0
      case Int(i) => i
      case _ => 0
  }

  /** Python's `==` on decoded JSON values. */
  predicate PyEq(a: Json, b: Json)
    ensures a == b ==> PyEq(a, b)
    decreases a
  {
    match (a, b)
      case (Array(xs), Array(ys)) => |xs| == |ys| && forall i :: 0 <= i < |xs| ==> PyEq(xs[i], ys[i])
      case (Object(m), Object(n)) => m.Keys == n.Keys && forall k :: k in m ==> PyEq(m[k], n[k])
      case _ => if (a.Bool? || a.Int?) && (b.Bool? || b.Int?) then Num(a) == Num(b) else a == b
  }

  /** Numbers and booleans compare by value: `True == 1` and `False == 0`. */
  lemma PyEqNumbers(a: Json, b: Json)
    requires (a.Bool? || a.Int?) && (b.Bool? || b.Int?)
    ensures PyEq(a, b) <==> Num(a) == Num(b)
    ensures PyEq(Bool(true), Int(1)) && PyEq(Int(0), Bool(false)) && !PyEq(Bool(true), Int(2))
  {
  }

  /** Comparing with a string is plain equality. */
  lemma PyEqString(a: Json, s: string)
    ensures PyEq(a, Str(s)) <==> a == Str(s)
  {
  }

  /** `pet["Имя"]`: None when it raises (the key is missing, or the pet is not an object). */
  function NameOf(pet: Json): (name: Option<Json>)
    ensures name.Some? <==> pet.Object? && NAME in pet.fields
  {
    if pet.Object? && NAME in pet.fields then Some(pet.fields[NAME]) else None
  }

  /** `field in body`: None when the test raises (a number or `true` has no `in`). */
  function Contains(body: Json, field: string): (r: Option<bool>)
    ensures r.None? <==> !(body.Object? || body.Array? || body.Str?)
    ensures body.Object? ==> r == Some(field in body.fields)
    ensures body.Str? ==> r == Some(IsSubstring(field, body.s))
  {
    match body
      case Object(m) => Some(field in m)
      case Array(xs) => Some(Str(field) in xs)
      case Str(s) => Some(IsSubstring(field, s))
      case _ => None
  }

  // ---------------------------------------------------------------------
  // First-match search by name
  // ---------------------------------------------------------------------

  /** How the loop `for pet in animals: if pet["Имя"] == name` ends. */
  datatype Search = Found(index: nat) | Absent | Raised

  /** The pet has a name and it equals `name`. */
  predicate Matches(pet: Json, name: Json)
  {
    NameOf(pet).Some? && PyEq(NameOf(pet).value, name)
  }

  /** The pet has a name and it is not `name`: the loop moves on. */
  predicate Other(pet: Json, name: Json)
  {
    NameOf(pet).Some? && !PyEq(NameOf(pet).value, name)
  }

  /**
   * The search from position `start` on: the first pet that matches, unless
   * a pet without a name comes first (then the lookup raises); Absent
   * exactly when every remaining pet has a name and none matches.
   */
  function FindFrom(animals: seq<Json>, name: Json, start: nat): (r: Search)
    requires start <= |animals|
    ensures r.Found? ==> start <= r.index < |animals| && Matches(animals[r.index], name)
                         && forall j :: start <= j < r.index ==> Other(animals[j], name)
    ensures r.Absent? <==> forall j :: start <= j < |animals| ==> Other(animals[j], name)
    ensures r.Raised? ==> exists j :: start <= j < |animals| && NameOf(animals[j]).None?
                                      && forall k :: start <= k < j ==> Other(animals[k], name)
    decreases |animals| - start
  {
    if start == |animals| then Absent
    else match NameOf(animals[start])
      case None => Raised
      case Some(n) => if PyEq(n, name) then Found(start) else FindFrom(animals, name, start + 1)
  }

  function FindName(animals: seq<Json>, name: Json): Search
  {
    FindFrom(animals, name, 0)
  }

  /** No two named pets have equal names. */
  predicate UniqueNames(animals: seq<Json>)
  {
    forall i, j :: 0 <= i < j < |animals| && NameOf(animals[i]).Some? && NameOf(animals[j]).Some?
                   ==> !PyEq(NameOf(animals[i]).value, NameOf(animals[j]).value)
  }

  /** Every pet has a name. */
  predicate AllNamed(animals: seq<Json>)
  {
    forall i :: 0 <= i < |animals| ==> NameOf(animals[i]).Some?
  }

  // ---------------------------------------------------------------------
  // The handlers as functions of the data file and the request
  // ---------------------------------------------------------------------

  /**
   * `get_name`: the first pet with that name with 200, 404 when every pet
   * has another name, 500 when a pet without a name comes first.
   */
  function Lookup(animals: seq<Json>, name: string): (r: Reply)
    ensures r.status in {200, 404, 500}
    ensures r.status == 200 <==> FindName(animals, Str(name)).Found?
    ensures r.status == 200 ==> r.body == Some(animals[FindName(animals, Str(name)).index])
    ensures r.status == 404 <==> forall j :: 0 <= j < |animals| ==> Other(animals[j], Str(name))
    ensures r.status == 404 ==> r == NOT_FOUND
  {
    match FindName(animals, Str(name))
      case Found(i) => Reply(200, Some(animals[i]))
      case Absent => NOT_FOUND
      case Raised => INTERNAL_ERROR
  }

  /** How the loop over the required fields ends. */
  datatype FieldCheck = AllPresent | Missing(field: string) | CheckRaised

  /** The required-field loop from position `start` on. */
  function MissingFrom(body: Json, fields: seq<string>, start: nat): (r: FieldCheck)
    requires start <= |fields|
    ensures r.AllPresent? <==> forall j :: start <= j < |fields| ==> Contains(body, fields[j]) == Some(true)
    ensures r.Missing? ==> exists j :: start <= j < |fields| && r.field == fields[j]
                                       && Contains(body, fields[j]) == Some(false)
                                       && forall k :: start <= k < j ==> Contains(body, fields[k]) == Some(true)
    decreases |fields| - start
  {
    if start == |fields| then AllPresent
    else match Contains(body, fields[start])
      case None => CheckRaised
      case Some(present) =>
        if present then MissingFrom(body, fields, start + 1) else Missing(fields[start])
  }

  /** `create_pet`. */
  function Create(animals: seq<Json>, body: Option<Json>): (out: Outcome)
    ensures out.reply.status in {201, 400, 500}
    ensures out.reply.status == 201 ==> body.Some? && out.store == animals + [body.value] && out.reply.body == body
    ensures body.None? || !Truthy(body.value) ==> out.reply == ErrorReply("Нет данных в запросе", 400)
    ensures out.reply.status == 201 <==>
              && body.Some? && Truthy(body.value)
              && MissingFrom(body.value, REQUIRED, 0).AllPresent?
              && (animals == [] || (NameOf(body.value).Some? && FindName(animals, NameOf(body.value).value).Absent?))
    ensures out.reply.status == 500 <==>
              && body.Some? && Truthy(body.value)
              && (|| MissingFrom(body.value, REQUIRED, 0).CheckRaised?
                  || (&& MissingFrom(body.value, REQUIRED, 0).AllPresent? && animals != []
                      && (NameOf(body.value).None? || FindName(animals, NameOf(body.value).value).Raised?)))
    ensures out.reply.status != 201 ==> out.store == animals
  {
    if body.None? || !Truthy(body.value) then Outcome(animals, ErrorReply("Нет данных в запросе", 400))
    else match MissingFrom(body.value, REQUIRED, 0)
      case CheckRaised => Outcome(animals, INTERNAL_ERROR)
      case Missing(f) => Outcome(animals, ErrorReply("Отсутствует поле '" + f + "'", 400))
      case AllPresent =>
        if animals == [] then Outcome(animals + [body.value], Reply(201, body))
        else match NameOf(body.value)
          case None => Outcome(animals, INTERNAL_ERROR)
          case Some(n) =>
            match FindName(animals, n)
              case Found(_) => Outcome(animals, ErrorReply("Питомец с таким именем уже существует", 400))
              case Raised => Outcome(animals, INTERNAL_ERROR)
              case Absent => Outcome(animals + [body.value], Reply(201, body))
  }

  /**
   * One element of a list given to `dict.update`: a two-element list whose
   * first element is a string, or a two-character string.
   */
  function Pair(item: Json): (r: Option<(string, Json)>)
    ensures r.Some? ==> item.Array? || item.Str?
    ensures item.Array? ==> (r.Some? <==> |item.items| == 2 && item.items[0].Str?)
    ensures item.Str? ==> (r.Some? <==> |item.s| == 2)
  {
    match item
      case Array(kv) => if |kv| == 2 && kv[0].Str? then Some((kv[0].s, kv[1])) else None
      case Str(s) => if |s| == 2 then Some((s[..1], Str(s[1..]))) else None
      case _ => None
  }

  /** Every element of `pairs` is one `dict.update` accepts. */
  predicate AllPairs(pairs: seq<Json>)
  {
    forall i :: 0 <= i < |pairs| ==> Pair(pairs[i]).Some?
  }

  /** The keys the elements of `pairs` bring. */
  function PairKeys(pairs: seq<Json>): set<string>
    requires AllPairs(pairs)
  {
    set i | 0 <= i < |pairs| :: Pair(pairs[i]).value.0
  }

  /**
   * `pet.update(pairs)`, one pair after the other; None exactly when one of
   * them is no pair. Otherwise the pet gains the pairs' keys, the last pair
   * wins its key, and every key no pair brings keeps its value.
   */
  function UpdatePairs(pet: map<string, Json>, pairs: seq<Json>): (r: Option<map<string, Json>>)
    ensures r.Some? <==> AllPairs(pairs)
    ensures r.Some? ==> r.value.Keys == pet.Keys + PairKeys(pairs)
    ensures r.Some? ==> forall k :: k in pet && k !in PairKeys(pairs) ==> r.value[k] == pet[k]
    ensures r.Some? && pairs != [] ==> r.value[Pair(pairs[|pairs| - 1]).value.0] == Pair(pairs[|pairs| - 1]).value.1
    decreases |pairs|
  {
    if pairs == [] then
      assert PairKeys(pairs) == {};
      Some(pet)
    else match Pair(pairs[0])
      case None => None
      case Some(kv) =>
        var r := UpdatePairs(pet[kv.0 := kv.1], pairs[1..]);
        AllPairsCons(pairs);
        if r.Some? then
          PairKeysCons(pairs);
          assert |pairs| > 1 ==> pairs[1..][|pairs| - 2] == pairs[|pairs| - 1];
          r
        else r
  }

  lemma AllPairsCons(pairs: seq<Json>)
    requires pairs != []
    ensures AllPairs(pairs) <==> Pair(pairs[0]).Some? && AllPairs(pairs[1..])
  {
    if Pair(pairs[0]).Some? && AllPairs(pairs[1..]) {
      forall i | 0 <= i < |pairs| ensures Pair(pairs[i]).Some? {
        if i > 0 { assert pairs[i] == pairs[1..][i - 1]; }
      }
    }
  }

  lemma PairKeysCons(pairs: seq<Json>)
    requires pairs != [] && AllPairs(pairs)
    ensures AllPairs(pairs[1..])
    ensures PairKeys(pairs) == {Pair(pairs[0]).value.0} + PairKeys(pairs[1..])
  {
    var rest := pairs[1..];
    assert forall i :: 0 <= i < |rest| ==> rest[i] == pairs[i + 1];
    forall k | k in PairKeys(pairs) ensures k in {Pair(pairs[0]).value.0} + PairKeys(rest) {
      var i :| 0 <= i < |pairs| && Pair(pairs[i]).value.0 == k;
      if i > 0 { assert Pair(rest[i - 1]).value.0 == k; }
    }
    forall k | k in PairKeys(rest) ensures k in PairKeys(pairs) {
      var i :| 0 <= i < |rest| && Pair(rest[i]).value.0 == k;
      assert Pair(pairs[i + 1]).value.0 == k;
    }
  }

  /** `update` reads its list left to right: updating with `a + b` is updating with `a`, then with `b`. */
  lemma {:induction false} UpdatePairsAppend(pet: map<string, Json>, a: seq<Json>, b: seq<Json>)
    ensures UpdatePairs(pet, a + b)
         == match UpdatePairs(pet, a)
            case None => None
            case Some(m) => UpdatePairs(m, b)
    decreases |a|
  {
    if a == [] {
      assert a + b == b;
    } else {
      assert (a + b)[0] == a[0] && (a + b)[1..] == a[1..] + b;
      match Pair(a[0])
      case None =>
      case Some(kv) => UpdatePairsAppend(pet[kv.0 := kv.1], a[1..], b);
    }
  }

  /**
   * `pet.update(update)`: the keys of an object body overwrite or join the
   * pet's own, every other key keeps its value; a list is read as pairs,
   * and anything else raises (None). A string body fails too, since its
   * one-character elements are no pairs.
   */
  function Update(pet: map<string, Json>, update: Json): (r: Option<map<string, Json>>)
    ensures update.Object? ==> r == Some(pet + update.fields)
    ensures update.Array? ==> (r.Some? <==> AllPairs(update.items))
    ensures !update.Object? && !update.Array? ==> r.None?
    ensures update.Object? ==> forall k :: k in pet && k !in update.fields ==> k in r.value && r.value[k] == pet[k]
    ensures update.Object? ==> forall k :: k in update.fields ==> k in r.value && r.value[k] == update.fields[k]
  {
    match update
      case Object(m) => Some(pet + m)
      case Array(xs) => UpdatePairs(pet, xs)
      case _ => None
  }

  /** `change_pet`. */
  function Change(animals: seq<Json>, name: string, body: Option<Json>): (out: Outcome)
    ensures out.reply.status in {200, 400, 404, 500}
    ensures out.reply.status != 200 ==> out.store == animals
    ensures body.None? || !Truthy(body.value) ==> out.reply == ErrorReply("Нет данных для обновления", 400)
    ensures out.reply.status == 404 <==> body.Some? && Truthy(body.value) && FindName(animals, Str(name)).Absent?
    ensures out.reply.status == 404 ==> out.reply == NOT_FOUND
    ensures out.reply.status == 200 <==>
              && body.Some? && Truthy(body.value)
              && FindName(animals, Str(name)).Found?
              && Update(animals[FindName(animals, Str(name)).index].fields, body.value).Some?
    ensures out.reply.status == 500 <==>
              && body.Some? && Truthy(body.value)
              && (|| FindName(animals, Str(name)).Raised?
                  || (&& FindName(animals, Str(name)).Found?
                      && Update(animals[FindName(animals, Str(name)).index].fields, body.value).None?))
    ensures out.reply.status == 200 ==>
              && body.Some?
              && FindName(animals, Str(name)).Found?
              && var i := FindName(animals, Str(name)).index;
                 && |out.store| == |animals|
                 && (forall j :: 0 <= j < |animals| && j != i ==> out.store[j] == animals[j])
                 && out.store[i].Object?
                 && Update(animals[i].fields, body.value) == Some(out.store[i].fields)
                 && out.reply.body == Some(out.store[i])
  {
    if body.None? || !Truthy(body.value) then Outcome(animals, ErrorReply("Нет данных для обновления", 400))
    else match FindName(animals, Str(name))
      case Absent => Outcome(animals, NOT_FOUND)
      case Raised => Outcome(animals, INTERNAL_ERROR)
      case Found(i) =>
        match Update(animals[i].fields, body.value)
          case None => Outcome(animals, INTERNAL_ERROR)
          case Some(pet) => Outcome(animals[i := Object(pet)], Reply(200, Some(Object(pet))))
  }

  /** `delete_pet`. */
  function Delete(animals: seq<Json>, name: string): (out: Outcome)
    ensures out.reply.status in {200, 404, 500}
    ensures out.reply.status != 200 ==> out.store == animals
    ensures out.reply.status == 404 <==> forall j :: 0 <= j < |animals| ==> Other(animals[j], Str(name))
    ensures out.reply.status == 200 <==> FindName(animals, Str(name)).Found?
    ensures out.reply.status == 500 <==> FindName(animals, Str(name)).Raised?
    ensures out.reply.status == 200 ==>
              && FindName(animals, Str(name)).Found?
              && var i := FindName(animals, Str(name)).index;
                 && out.store == animals[..i] + animals[i + 1..]
                 && out.reply.body == Some(animals[i])
  {
    match FindName(animals, Str(name))
      case Found(i) => Outcome(animals[..i] + animals[i + 1..], Reply(200, Some(animals[i])))
      case Absent => Outcome(animals, NOT_FOUND)
      case Raised => Outcome(animals, INTERNAL_ERROR)
  }

  // ---------------------------------------------------------------------
  // Properties of the handlers
  // ---------------------------------------------------------------------

  /**
   * An object body that lacks a required field is refused with 400, naming
   * the first missing field in the order Животное, Имя, Возраст, Цвет глаз,
   * Есть ли дети, and the data file is unchanged.
   */
  lemma CreateNamesFirstMissing(animals: seq<Json>, pet: map<string, Json>)
    requires pet != map[]
    requires exists j :: 0 <= j < |REQUIRED| && REQUIRED[j] !in pet
    ensures var out := Create(animals, Some(Object(pet)));
            && out.store == animals
            && exists j :: 0 <= j < |REQUIRED| && REQUIRED[j] !in pet
                           && (forall k :: 0 <= k < j ==> REQUIRED[k] in pet)
                           && out.reply == ErrorReply("Отсутствует поле '" + REQUIRED[j] + "'", 400)
  {
    var j :| 0 <= j < |REQUIRED| && REQUIRED[j] !in pet;
    assert Contains(Object(pet), REQUIRED[j]) == Some(false);
  }

  /** A name already in the file is refused with 400 and nothing changes. */
  lemma CreateRefusesDuplicate(animals: seq<Json>, pet: map<string, Json>, i: nat)
    requires forall f :: f in REQUIRED ==> f in pet
    requires i < |animals| && Matches(animals[i], pet[NAME])
    requires forall j :: 0 <= j < i ==> Other(animals[j], pet[NAME])
    ensures Create(animals, Some(Object(pet)))
         == Outcome(animals, ErrorReply("Питомец с таким именем уже существует", 400))
  {
    assert REQUIRED[0] in pet;
    var r := MissingFrom(Object(pet), REQUIRED, 0);
    assert r.AllPresent? by {
      forall j | 0 <= j < |REQUIRED| ensures Contains(Object(pet), REQUIRED[j]) == Some(true) {
        assert REQUIRED[j] in REQUIRED;
      }
    }
  }

  /** A successful creation keeps the names of the file pairwise different. */
  lemma CreateKeepsNamesUnique(animals: seq<Json>, body: Option<Json>)
    requires UniqueNames(animals)
    requires Create(animals, body).reply.status == 201
    ensures UniqueNames(Create(animals, body).store)
  {
    var store := Create(animals, body).store;
    var pet := body.value;
    if animals != [] && NameOf(pet).Some? {
      var n := NameOf(pet).value;
      assert FindName(animals, n).Absent?;
      forall i, j | 0 <= i < j < |store| && NameOf(store[i]).Some? && NameOf(store[j]).Some?
        ensures !PyEq(NameOf(store[i]).value, NameOf(store[j]).value)
      {
        if j == |animals| {
          assert Other(animals[i], n);
        } else {
          assert store[i] == animals[i] && store[j] == animals[j];
        }
      }
    }
  }

  /**
   * Round trip: after a pet with a string name is created, looking that
   * name up answers the new pet with 200, and deleting it answers the pet
   * with 200 and gives back the data file as it was before.
   */
  lemma CreateThenLookupAndDelete(animals: seq<Json>, body: Option<Json>, name: string)
    requires Create(animals, body).reply.status == 201
    requires NameOf(body.value) == Some(Str(name))
    ensures Lookup(Create(animals, body).store, name) == Reply(200, body)
    ensures Delete(Create(animals, body).store, name) == Outcome(animals, Reply(200, body))
  {
    var store := Create(animals, body).store;
    var last := |animals|;
    assert store[last] == body.value;
    forall j | 0 <= j < last ensures Other(store[j], Str(name)) {
      if animals != [] {
        assert FindName(animals, Str(name)).Absent?;
        assert Other(animals[j], Str(name));
      }
    }
    assert FindName(store, Str(name)) == Found(last);
    assert store[..last] + store[last + 1..] == animals;
  }

  /**
   * A change to a name may create a duplicate: renaming one of two pets
   * with different names to the other's name is accepted.
   */
  lemma RenameCanDuplicate()
    ensures var animals := [Object(map[NAME := Str("Барсик")]), Object(map[NAME := Str("Мурзик")])];
            var out := Change(animals, "Мурзик", Some(Object(map[NAME := Str("Барсик")])));
            && UniqueNames(animals)
            && out.reply.status == 200
            && !UniqueNames(out.store)
  {
    var a := Object(map[NAME := Str("Барсик")]);
    var b := Object(map[NAME := Str("Мурзик")]);
    var animals := [a, b];
    assert "Барсик" != "Мурзик" by {
      assert "Барсик"[0] != "Мурзик"[0];
    }
    assert FindFrom(animals, Str("Мурзик"), 1) == Found(1);
    assert FindFrom(animals, Str("Мурзик"), 0) == Found(1);
    var out := Change(animals, "Мурзик", Some(Object(map[NAME := Str("Барсик")])));
    assert out.store == [a, Object(b.fields + map[NAME := Str("Барсик")])];
    assert NameOf(out.store[1]).value == Str("Барсик");
    assert PyEq(NameOf(out.store[0]).value, NameOf(out.store[1]).value);
  }

  /** A successful change leaves every other pet as it was, and the number of pets. */
  lemma ChangeTouchesOnlyFirstMatch(animals: seq<Json>, name: string, body: Option<Json>, j: nat)
    requires Change(animals, name, body).reply.status == 200
    requires j < |animals|
    requires !Matches(animals[j], Str(name)) || exists k :: 0 <= k < j && Matches(animals[k], Str(name))
    ensures Change(animals, name, body).store[j] == animals[j]
  {
  }

  /** Deleting keeps the other pets in their order: the first match is cut out. */
  lemma {:induction false} DeleteKeepsOthers(animals: seq<Json>, name: string, j: nat)
    requires Delete(animals, name).reply.status == 200
    requires j < |Delete(animals, name).store|
    ensures var i := FindName(animals, Str(name)).index;
            Delete(animals, name).store[j] == animals[if j < i then j else j + 1]
  {
  }

  /** Deleting keeps every pet named and the names different. */
  lemma DeleteKeepsNamesUnique(animals: seq<Json>, name: string)
    requires AllNamed(animals) && UniqueNames(animals)
    requires Delete(animals, name).reply.status == 200
    ensures AllNamed(Delete(animals, name).store) && UniqueNames(Delete(animals, name).store)
  {
    var store := Delete(animals, name).store;
    forall j | 0 <= j < |store| ensures NameOf(store[j]).Some? {
      DeleteKeepsOthers(animals, name, j);
    }
    forall a, b | 0 <= a < b < |store|
      ensures !PyEq(NameOf(store[a]).value, NameOf(store[b]).value)
    {
      DeleteKeepsOthers(animals, name, a);
      DeleteKeepsOthers(animals, name, b);
    }
  }

  /**
   * Deleting from a file whose pets all have different names removes the
   * name: looking it up afterwards answers 404.
   */
  lemma DeleteRemovesName(animals: seq<Json>, name: string)
    requires AllNamed(animals) && UniqueNames(animals)
    requires Delete(animals, name).reply.status == 200
    ensures Lookup(Delete(animals, name).store, name) == NOT_FOUND
  {
    var i := FindName(animals, Str(name)).index;
    var store := Delete(animals, name).store;
    assert NameOf(animals[i]).value == Str(name);
    forall j | 0 <= j < |store| ensures Other(store[j], Str(name)) {
      DeleteKeepsOthers(animals, name, j);
      var k := if j < i then j else j + 1;
      if k < i {
        assert Other(animals[k], Str(name));
      } else {
        assert !PyEq(NameOf(animals[i]).value, NameOf(animals[k]).value);
      }
    }
  }

  // ---------------------------------------------------------------------
  // The service
  // ---------------------------------------------------------------------

  /** The service and its data file, which starts as an empty list. */
  class PetStore {
    var animals: seq<Json>

    constructor ()
      ensures animals == []
    {
      animals := [];
    }

    /** `get_all`: the whole list, in stored order, with 200. */
    method GetAll() returns (reply: Reply)
      ensures reply.status == 200 && reply.body == Some(Array(animals))
    {
      reply := Reply(200, Some(Array(animals)));
    }

    /** `get_name`: scans the list for the first pet with that name. */
    method GetName(name: string) returns (reply: Reply)
      ensures reply == Lookup(animals, name)
    {
      var i := 0;
      while i < |animals|
        invariant i <= |animals|
        invariant FindFrom(animals, Str(name), i) == FindName(animals, Str(name))
      {
        var pet := animals[i];
        var petName := NameOf(pet);
        if petName.None? {
          return INTERNAL_ERROR;
        }
        if PyEq(petName.value, Str(name)) {
          return Reply(200, Some(pet));
        }
        i := i + 1;
      }
      reply := NOT_FOUND;
    }

    /** `create_pet`: validates the body and appends it as a new pet. */
    method CreatePet(body: Option<Json>) returns (reply: Reply)
      modifies this
      ensures Outcome(animals, reply) == Create(old(animals), body)
    {
      if body.None? || !Truthy(body.value) {
        return ErrorReply("Нет данных в запросе", 400);
      }
      var newPet := body.value;
      for k := 0 to |REQUIRED|
        invariant MissingFrom(newPet, REQUIRED, k) == MissingFrom(newPet, REQUIRED, 0)
      {
        var present := Contains(newPet, REQUIRED[k]);
        if present.None? {
          return INTERNAL_ERROR;
        }
        if !present.value {
          return ErrorReply("Отсутствует поле '" + REQUIRED[k] + "'", 400);
        }
      }
      if animals != [] {
        // Each comparison reads the new pet's name; the first one raises if it has none.
        var newName := NameOf(newPet);
        if newName.None? {
          return INTERNAL_ERROR;
        }
        var i := 0;
        while i < |animals|
          invariant i <= |animals|
          invariant FindFrom(animals, newName.value, i) == FindName(animals, newName.value)
        {
          var petName := NameOf(animals[i]);
          if petName.None? {
            return INTERNAL_ERROR;
          }
          if PyEq(petName.value, newName.value) {
            return ErrorReply("Питомец с таким именем уже существует", 400);
          }
          i := i + 1;
        }
      }
      animals := animals + [newPet];
      reply := Reply(201, body);
    }

    /** `change_pet`: updates the first pet with that name from the body. */
    method ChangePet(name: string, body: Option<Json>) returns (reply: Reply)
      modifies this
      ensures Outcome(animals, reply) == Change(old(animals), name, body)
    {
      if body.None? || !Truthy(body.value) {
        return ErrorReply("Нет данных для обновления", 400);
      }
      var i := 0;
      while i < |animals|
        invariant i <= |animals|
        invariant FindFrom(animals, Str(name), i) == FindName(animals, Str(name))
      {
        var pet := animals[i];
        var petName := NameOf(pet);
        if petName.None? {
          return INTERNAL_ERROR;
        }
        if PyEq(petName.value, Str(name)) {
          var updated := Update(pet.fields, body.value);
          if updated.None? {
            return INTERNAL_ERROR;
          }
          animals := animals[i := Object(updated.value)];
          return Reply(200, Some(Object(updated.value)));
        }
        i := i + 1;
      }
      reply := NOT_FOUND;
    }

    /** `delete_pet`: removes the first pet with that name. */
    method DeletePet(name: string) returns (reply: Reply)
      modifies this
      ensures Outcome(animals, reply) == Delete(old(animals), name)
    {
      var i := 0;
      while i < |animals|
        invariant i <= |animals|
        invariant FindFrom(animals, Str(name), i) == FindName(animals, Str(name))
      {
        var pet := animals[i];
        var petName := NameOf(pet);
        if petName.None? {
          return INTERNAL_ERROR;
        }
        if PyEq(petName.value, Str(name)) {
          animals := animals[..i] + animals[i + 1..];
          return Reply(200, Some(pet));
        }
        i := i + 1;
      }
      reply := NOT_FOUND;
    }
  }
}
