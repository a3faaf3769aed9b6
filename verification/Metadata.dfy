/** The merge of a document's attributes, the part of a document that no conflict block can hold. */
module Metadata {
  import opened Wrappers

  /** A value as JSON has it: a record, or anything else as its text. The order of a record's keys is not kept. */
  datatype Json = Leaf(text: string) | Record(fields: map<string, Json>)

  /** A three-way choice; nothing when it takes a look inside. An absent value is `None`. */
  function Plain(base: Option<Json>, local: Option<Json>, remote: Option<Json>): Option<Option<Json>> {
    if local == remote then Some(local)
    else if local == base then Some(remote)
    else if remote == base then Some(local)
    else None
  }

  /** The merge of two values that both sides have, key by key where both are records; nothing when they collide. */
  function Both(base: Option<Json>, local: Json, remote: Json): (r: Option<Option<Json>>)
    decreases local
  {
    if Plain(base, Some(local), Some(remote)).Some? then Plain(base, Some(local), Some(remote))
    else if local.Record? && remote.Record? then
      var keys := FieldsOf(base).Keys + local.fields.Keys + remote.fields.Keys;
      var parts := map key | key in keys ::
        if key in local.fields && key in remote.fields
        then Both(Get(FieldsOf(base), key), local.fields[key], remote.fields[key])
        else Plain(Get(FieldsOf(base), key), Get(local.fields, key), Get(remote.fields, key));
      if forall key :: key in keys ==> parts[key].Some?
      then Some(Some(Record(map key | key in keys && parts[key].value.Some? :: parts[key].value.value)))
      else None
    else None
  }

  function Merge(base: Option<Json>, local: Option<Json>, remote: Option<Json>): Option<Option<Json>> {
    if local.Some? && remote.Some? then Both(base, local.value, remote.value) else Plain(base, local, remote)
  }

  function FieldsOf(v: Option<Json>): map<string, Json> {
    if v.Some? && v.value.Record? then v.value.fields else map[]
  }

  function Sub(v: Option<Json>, key: string): Option<Json> {
    Get(FieldsOf(v), key)
  }

  /** What a path of keys leads to. */
  function At(v: Option<Json>, path: seq<string>): Option<Json>
    decreases |path|
  {
    if path == [] then v else At(Sub(v, path[0]), path[1..])
  }

  ghost predicate AreRecords(local: Option<Json>, remote: Option<Json>) {
    local.Some? && remote.Some? && local.value.Record? && remote.value.Record?
  }

  /** The sides left the base for different values that are not both records. */
  ghost predicate Collides(base: Option<Json>, local: Option<Json>, remote: Option<Json>) {
    local != remote && local != base && remote != base && !AreRecords(local, remote)
  }

  /** Both sides have records all the way down to the last key of a path. */
  ghost predicate Reached(local: Option<Json>, remote: Option<Json>, path: seq<string>)
    decreases |path|
  {
    path == [] || (AreRecords(local, remote) && Reached(Sub(local, path[0]), Sub(remote, path[0]), path[1..]))
  }

  /** Where both sides have records and neither is the base's, the merge goes key by key. */
  lemma Under(base: Option<Json>, local: Option<Json>, remote: Option<Json>)
    requires AreRecords(local, remote) && Plain(base, local, remote).None?
    ensures var merged := Merge(base, local, remote);
            && (merged.None? ==> exists key :: MergeAt(base, local, remote, key).None?)
            && (merged.Some? ==> AreRecords(merged.value, merged.value))
            && (merged.Some? ==> forall key :: MergeAt(base, local, remote, key) == Some(Sub(merged.value, key)))
  {
    var keys := FieldsOf(base).Keys + FieldsOf(local).Keys + FieldsOf(remote).Keys;
    forall key
      ensures key !in keys ==> MergeAt(base, local, remote, key) == Some(None)
    {
    }
    if Merge(base, local, remote).None? {
      var key :| key in keys && MergeAt(base, local, remote, key).None?;
    }
  }

  function MergeAt(base: Option<Json>, local: Option<Json>, remote: Option<Json>, key: string): Option<Option<Json>> {
    Merge(Sub(base, key), Sub(local, key), Sub(remote, key))
  }

  /** Where the merge stands at a place: what the sides agree on, what the one that left the base has, or a record made
    of both. */
  ghost predicate ThreeWay(base: Option<Json>, local: Option<Json>, remote: Option<Json>, merged: Option<Json>) {
    if local == remote then merged == local
    else if local == base then merged == remote
    else if remote == base then merged == local
    else AreRecords(local, remote) && merged.Some? && merged.value.Record?
  }

  /** At every place the merge gets to, a value is what the sides' changes make it. */
  lemma {:induction false} MergedAt(base: Option<Json>, local: Option<Json>, remote: Option<Json>, path: seq<string>)
    requires Merge(base, local, remote).Some? && Reached(local, remote, path)
    ensures ThreeWay(At(base, path), At(local, path), At(remote, path), At(Merge(base, local, remote).value, path))
    decreases |path|
  {
    hide ThreeWay;
    var merged := Merge(base, local, remote).value;
    if Plain(base, local, remote).Some? {
      PlainAt(base, local, remote, merged, path);
    } else if path == [] {
      Here(base, local, remote);
    } else {
      Under(base, local, remote);
      assert MergeAt(base, local, remote, path[0]) == Some(Sub(merged, path[0]));
      MergedAt(Sub(base, path[0]), Sub(local, path[0]), Sub(remote, path[0]), path[1..]);
    }
  }

  lemma PlainAt(base: Option<Json>, local: Option<Json>, remote: Option<Json>, merged: Option<Json>, path: seq<string>)
    requires Plain(base, local, remote) == Some(merged)
    ensures ThreeWay(At(base, path), At(local, path), At(remote, path), At(merged, path))
  {
  }

  lemma Here(base: Option<Json>, local: Option<Json>, remote: Option<Json>)
    requires Merge(base, local, remote).Some? && Plain(base, local, remote).None?
    ensures ThreeWay(base, local, remote, Merge(base, local, remote).value)
  {
  }

  lemma {:induction false} FindCollision(base: Option<Json>, local: Json, remote: Json) returns (path: seq<string>)
    requires Both(base, local, remote).None?
    ensures CollidesAt(base, Some(local), Some(remote), path)
    decreases local
  {
    if local.Record? && remote.Record? {
      Under(base, Some(local), Some(remote));
      var key :| MergeAt(base, Some(local), Some(remote), key).None?;
      var b, l, r := Sub(base, key), Sub(Some(local), key), Sub(Some(remote), key);
      path := [];
      if l.Some? && r.Some? {
        path := FindCollision(b, l.value, r.value);
      }
      Deeper(base, Some(local), Some(remote), key, path);
      path := [key] + path;
    } else {
      path := [];
    }
  }

  lemma Deeper(base: Option<Json>, local: Option<Json>, remote: Option<Json>, key: string, path: seq<string>)
    requires AreRecords(local, remote) && Reached(Sub(local, key), Sub(remote, key), path)
    ensures var deep := [key] + path;
            && Reached(local, remote, deep)
            && At(base, deep) == At(Sub(base, key), path) && At(local, deep) == At(Sub(local, key), path)
            && At(remote, deep) == At(Sub(remote, key), path)
  {
    assert ([key] + path)[1..] == path;
  }

  ghost predicate CollidesAt(base: Option<Json>, local: Option<Json>, remote: Option<Json>, path: seq<string>) {
    Reached(local, remote, path) && Collides(At(base, path), At(local, path), At(remote, path))
  }

  /** The merge is refused exactly when the sides collide somewhere: no change is ever given up for another. */
  lemma RefusedIff(base: Option<Json>, local: Json, remote: Json)
    ensures Merge(base, Some(local), Some(remote)).None? <==>
      exists path :: CollidesAt(base, Some(local), Some(remote), path)
  {
    if Both(base, local, remote).None? {
      var path := FindCollision(base, local, remote);
    } else {
      forall path | Reached(Some(local), Some(remote), path)
        ensures !CollidesAt(base, Some(local), Some(remote), path)
      {
        MergedAt(base, Some(local), Some(remote), path);
      }
    }
  }
}
