/** Reading the name/value pairs of a submitted form or query string, in their order:
    copying them into a plain object with `forEach` (a repeated name keeps its first
    position and its last value), and `URLSearchParams.get` (the first value). */
module FormFields {
  import opened Common
  import opened ECPay

  type Entry = (string, string)

  /** The object `forEach((value, key) => params[key] = value)` leaves behind: every
      name but `__proto__` becomes a field. */
  function FormValues(entries: seq<Entry>): (m: map<string, string>)
    ensures forall i :: 0 <= i < |entries| && entries[i].0 != ProtoKey ==> entries[i].0 in m
    ensures forall k :: k in m ==> k != ProtoKey && exists i :: 0 <= i < |entries| && entries[i].0 == k
  {
    if entries == [] then map[]
    else
      var last := entries[|entries| - 1];
      var prev := FormValues(entries[..|entries| - 1]);
      var m := if last.0 == ProtoKey then prev else prev[last.0 := last.1];
      assert forall i :: 0 <= i < |entries| - 1 ==> entries[..|entries| - 1][i] == entries[i];
      m
  }

  /** The order that object enumerates its keys in: the array-index names in ascending
      numeric order, then the other names in the order they first arrived. */
  function FormKeys(entries: seq<Entry>): (ks: seq<string>)
    ensures Distinct(ks) && IndexKeysFirst(ks)
    ensures forall k :: k in ks <==> k in FormValues(entries)
  {
    if entries == [] then []
    else
      var ks := FormKeys(entries[..|entries| - 1]);
      var k := entries[|entries| - 1].0;
      if k == ProtoKey || k in ks then ks
      else
        AddKeyKeepsOrder(ks, k);
        AddKey(ks, k)
  }

  /** `URLSearchParams.get(name)`: the first value under that name, or null. */
  function FirstValue(entries: seq<Entry>, name: string): (r: Option<string>)
    ensures r.None? <==> forall i :: 0 <= i < |entries| ==> entries[i].0 != name
    ensures r.Some? ==> exists i :: 0 <= i < |entries| && entries[i] == (name, r.value)
                                  && forall j :: 0 <= j < i ==> entries[j].0 != name
  {
    if entries == [] then None
    else if entries[0].0 == name then Some(entries[0].1)
    else
      var r := FirstValue(entries[1..], name);
      assert forall i :: 1 <= i < |entries| ==> entries[1..][i - 1] == entries[i];
      r
  }

  function Lookup(m: map<string, string>, name: string): Option<string>
  {
    if name in m then Some(m[name]) else None
  }

  predicate UniqueNames(entries: seq<Entry>)
  {
    forall i, j :: 0 <= i < j < |entries| ==> entries[i].0 != entries[j].0
  }

  /** A name's value in the object is the one it was given last. */
  lemma {:induction false} LastValueWins(entries: seq<Entry>, i: nat)
    requires i < |entries|
    requires forall j :: i < j < |entries| ==> entries[j].0 != entries[i].0
    ensures entries[i].0 != ProtoKey ==> FormValues(entries)[entries[i].0] == entries[i].1
  {
    if i < |entries| - 1 {
      var prefix := entries[..|entries| - 1];
      assert prefix[i] == entries[i];
      forall j | i < j < |prefix| ensures prefix[j].0 != prefix[i].0 {
        assert prefix[j] == entries[j];
      }
      LastValueWins(prefix, i);
    }
  }

  /** When no name repeats, the object and `URLSearchParams.get` agree on every name
      but `__proto__`, which the object never holds. */
  lemma FirstIsLastWhenUnique(entries: seq<Entry>, name: string)
    requires UniqueNames(entries)
    ensures name != ProtoKey ==> FirstValue(entries, name) == Lookup(FormValues(entries), name)
    ensures Lookup(FormValues(entries), ProtoKey).None?
  {
    var r := FirstValue(entries, name);
    if r.Some? {
      var i :| 0 <= i < |entries| && entries[i] == (name, r.value)
               && forall j :: 0 <= j < i ==> entries[j].0 != name;
      LastValueWins(entries, i);
    }
  }

  /** With a repeated name the two disagree: the object keeps the last value. */
  lemma RepeatedNameDisagrees()
    ensures var entries := [("RtnCode", "1"), ("RtnCode", "0")];
      FirstValue(entries, "RtnCode") == Some("1") && Lookup(FormValues(entries), "RtnCode") == Some("0")
  {
    var entries := [("RtnCode", "1"), ("RtnCode", "0")];
    assert entries[..1] == [("RtnCode", "1")];
    assert entries[..1][..0] == [];
  }

  /** A field named `__proto__` leaves the object as it was. */
  lemma ProtoNameIgnored(entries: seq<Entry>, value: string)
    ensures FormValues(entries + [(ProtoKey, value)]) == FormValues(entries)
    ensures FormKeys(entries + [(ProtoKey, value)]) == FormKeys(entries)
  {
    assert (entries + [(ProtoKey, value)])[..|entries|] == entries;
  }

  /** One more field: a repeated name keeps its place, a new one is added in
      enumeration order. */
  lemma FormKeysStep(entries: seq<Entry>, name: string, value: string)
    requires name != ProtoKey
    ensures FormKeys(entries + [(name, value)])
         == if name in FormValues(entries) then FormKeys(entries) else AddKey(FormKeys(entries), name)
  {
    assert (entries + [(name, value)])[..|entries|] == entries;
  }

  /** Array-index names come first, in numeric order, whatever order they arrived in. */
  lemma KeyOrderExample()
    ensures AddKey(AddKey(["b"], "7"), "0") == ["0", "7", "b"]
  {
    assert !IsArrayIndex("b");
    assert IsArrayIndex("7") && DecimalValue("7") == 7;
    assert IndexSlot(["b"], "7") == 0;
    assert AddKey(["b"], "7") == ["7", "b"];
    assert IsArrayIndex("0") && DecimalValue("0") == 0;
    assert IndexSlot(["7", "b"], "0") == 0;
  }

  /** `formData.forEach((value, key) => { params[key] = value })`, as the two payment
      routes copy the form into a plain object. */
  method ReadForm(entries: seq<Entry>) returns (params: ParamsObject)
    ensures fresh(params) && params.Valid()
    ensures params.values == FormValues(entries) && params.keys == FormKeys(entries)
  {
    params := new ParamsObject();
    var i := 0;
    while i < |entries|
      invariant 0 <= i <= |entries|
      invariant params.Valid()
      invariant params.values == FormValues(entries[..i])
      invariant params.keys == FormKeys(entries[..i])
    {
      assert entries[..i + 1][..i] == entries[..i];
      params.Put(entries[i].0, entries[i].1);
      i := i + 1;
    }
    assert entries[..i] == entries;
  }
}
