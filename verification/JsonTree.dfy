// JSON as the JSON library hands it over: a tree. Of members with the same name a lookup finds the
// first.
module JsonTree {
  import opened EventTypes

  datatype Json =
    | Null
    | Bool(b: bool)
    | Number(n: nat)
    | Str(s: string)
    | Array(items: seq<Json>)
    | Object(members: seq<(string, Json)>)

  function Lookup(members: seq<(string, Json)>, key: string): Option<Json> {
    if members == [] then None
    else if members[0].0 == key then Some(members[0].1)
    else Lookup(members[1..], key)
  }

  // The first member of that name; nothing else than an object has members.
  function Get(j: Json, key: string): Option<Json> {
    if j.Object? then Lookup(j.members, key) else None
  }

  predicate IsObject(j: Option<Json>) { j.Some? && j.value.Object? }
  predicate IsArray(j: Option<Json>) { j.Some? && j.value.Array? }

  function AsNumber(j: Option<Json>): Option<nat> {
    if j.Some? && j.value.Number? then Some(j.value.n) else None
  }

  function AsString(j: Option<Json>): Option<string> {
    if j.Some? && j.value.Str? then Some(j.value.s) else None
  }

  lemma {:induction false} LookupFirst(before: seq<(string, Json)>, key: string, j: Json, after: seq<(string, Json)>)
    requires forall m | m in before :: m.0 != key
    ensures Lookup(before + ([(key, j)] + after), key) == Some(j)
  {
    if before == [] {
      assert before + ([(key, j)] + after) == [(key, j)] + after;
    } else {
      LookupFirst(before[1..], key, j, after);
      assert (before + ([(key, j)] + after))[1..] == before[1..] + ([(key, j)] + after);
      assert before[0] in before;
    }
  }
}
