/**
 * The JSON documents that travel between the chat clients and the hub, at the
 * level of detail that serde's derived (de)serialisers see them: a document is
 * a tree of values, an object is the list of its members in textual order.
 * Printing a value to characters and parsing characters into a value belong to
 * serde_json and are not part of this model.
 */
module Json {

  datatype Option<+T> = None | Some(value: T)

  /** A JSON value. Numbers are the integers the protocol uses. */
  datatype Json =
    | JNull
    | JBool(b: bool)
    | JNumber(n: int)
    | JString(s: string)
    | JArray(items: seq<Json>)
    | JObject(members: seq<(string, Json)>)

  /**
   * One text frame seen through the JSON grammar: either a well-formed
   * document, identified with the value it denotes, or text that is not JSON.
   */
  datatype Text = Document(value: Json) | NotJson(raw: string)

  /** No member name occurs twice. */
  ghost predicate DistinctNames(members: seq<(string, Json)>)
  {
    forall i, j :: 0 <= i < j < |members| ==> members[i].0 != members[j].0
  }

  /** The values stored under `key`, in order. */
  function Occurrences(members: seq<(string, Json)>, key: string): (r: seq<Json>)
    ensures |r| <= |members|
    ensures forall v :: v in r ==> (key, v) in members
  {
    if members == [] then []
    else (if members[0].0 == key then [members[0].1] else []) + Occurrences(members[1..], key)
  }

  /**
   * A named field as a derived deserialiser reads it: present exactly once.
   * A missing field and a duplicated field are both decode errors.
   */
  function Field(members: seq<(string, Json)>, key: string): (r: Option<Json>)
    ensures r.Some? ==> (key, r.value) in members
    ensures (forall i :: 0 <= i < |members| ==> members[i].0 != key) ==> r.None?
  {
    var found := Occurrences(members, key);
    if |found| == 1 then Some(found[0]) else None
  }

  lemma {:induction false} OccurrencesAbsent(members: seq<(string, Json)>, key: string)
    requires forall i :: 0 <= i < |members| ==> members[i].0 != key
    ensures Occurrences(members, key) == []
  {
    if members != [] {
      OccurrencesAbsent(members[1..], key);
    }
  }

  lemma {:induction false} OccurrencesDistinct(members: seq<(string, Json)>, k: nat)
    requires DistinctNames(members)
    requires k < |members|
    ensures Occurrences(members, members[k].0) == [members[k].1]
  {
    if k == 0 {
      OccurrencesAbsent(members[1..], members[0].0);
    } else {
      assert members[k].0 == members[1..][k - 1].0;
      OccurrencesDistinct(members[1..], k - 1);
    }
  }

  /** In an object whose names are distinct, every member is found under its name. */
  lemma FieldOfDistinct(members: seq<(string, Json)>, k: nat)
    requires DistinctNames(members)
    requires k < |members|
    ensures Field(members, members[k].0) == Some(members[k].1)
  {
    OccurrencesDistinct(members, k);
  }

  /** A `Vec<String>` as serde serialises it: an array of strings. */
  function StringArray(xs: seq<string>): (r: Json)
    ensures r.JArray? && |r.items| == |xs|
    ensures forall i :: 0 <= i < |xs| ==> r.items[i] == JString(xs[i])
  {
    JArray(seq(|xs|, i requires 0 <= i < |xs| => JString(xs[i])))
  }

  /** A `Vec<String>` as serde deserialises it: every item must be a string. */
  function Strings(items: seq<Json>): (r: Option<seq<string>>)
    ensures r.Some? ==> |r.value| == |items| && forall i :: 0 <= i < |items| ==> items[i] == JString(r.value[i])
  {
    if items == [] then Some([])
    else match items[0]
      case JString(s) =>
        (match Strings(items[1..])
         case Some(rest) => Some([s] + rest)
         case None => None)
      case _ => None
  }

  /** Reading back a serialised list of strings gives the same list, in the same order. */
  lemma {:induction false} StringsRoundTrip(xs: seq<string>)
    ensures Strings(StringArray(xs).items) == Some(xs)
  {
    if xs != [] {
      assert StringArray(xs).items[1..] == StringArray(xs[1..]).items;
      StringsRoundTrip(xs[1..]);
      assert [xs[0]] + xs[1..] == xs;
    }
  }
}
