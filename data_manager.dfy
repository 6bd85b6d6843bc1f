/** `DataManager`: the record store's keyed merge, the upload validator, the
    distinct values of a column and the generic filter. */
module DataManagement {
  import opened Wrappers
  import opened Text
  import opened Seqs
  import opened Items
  import opened Config
  import opened Utils
  import opened Models

  // ---------------------------------------------------------------------------
  // validateDataStructure

  /** `REQUIRED_FIELDS.every(field => field in item)`. */
  predicate HasRequiredFields(item: Item) {
    forall f :: f in REQUIRED_FIELDS ==> f in Keys(item)
  }

  /** `data.every(...)`, record by record. */
  function AllHaveRequiredFields(data: seq<Item>): (ok: bool)
    ensures ok <==> forall i :: 0 <= i < |data| ==> HasRequiredFields(data[i])
    decreases |data|
  {
    data == [] || (HasRequiredFields(data[0]) && AllHaveRequiredFields(data[1..]))
  }

  /** An empty upload is rejected; otherwise every record must carry every
      required property. */
  function ValidateDataStructure(data: seq<Item>): (ok: bool)
    ensures ok <==> |data| > 0 && forall i :: 0 <= i < |data| ==> HasRequiredFields(data[i])
  {
    |data| > 0 && AllHaveRequiredFields(data)
  }

  /** In an accepted upload every required property reads as defined. */
  lemma ValidatedFieldsDefined(data: seq<Item>, i: nat, f: string)
    requires ValidateDataStructure(data) && i < |data| && f in REQUIRED_FIELDS
    ensures Get(data[i], f).Some?
  {
    GetDefined(data[i], f);
  }

  // ---------------------------------------------------------------------------
  // mergeData

  function KeyOf(item: Item): string { GenerateUniqueKey(item) }

  /** `data.findIndex(x => key(x) === k)`. */
  function FindKey<T>(data: seq<T>, key: T -> string, k: string): (r: int)
    ensures -1 <= r < |data|
    ensures r >= 0 ==> key(data[r]) == k && forall j :: 0 <= j < r ==> key(data[j]) != k
    ensures r == -1 ==> forall j :: 0 <= j < |data| ==> key(data[j]) != k
    decreases |data|
  {
    if data == [] then -1
    else if key(data[0]) == k then 0
    else
      var r := FindKey(data[1..], key, k);
      if r == -1 then -1 else r + 1
  }

  /** The store and the number of records counted as updated. */
  datatype Merged<T> = Merged(data: seq<T>, updated: nat)

  /** One new record: appended when its key is new, written over the first
      record with its key when the two differ, otherwise ignored. */
  function MergeItem<T(==)>(m: Merged<T>, key: T -> string, item: T): Merged<T> {
    var i := FindKey(m.data, key, key(item));
    if i == -1 then Merged(m.data + [item], m.updated + 1)
    else if m.data[i] != item then Merged(m.data[i := item], m.updated + 1)
    else m
  }

  /** `mergeData`'s whole pass, new record by new record. */
  function Merge<T(==)>(data: seq<T>, key: T -> string, newData: seq<T>): Merged<T>
    decreases |newData|
  {
    if newData == [] then Merged(data, 0)
    else MergeItem(Merge(data, key, newData[..|newData| - 1]), key, newData[|newData| - 1])
  }

  /** One step grows the store by one exactly when the key is new, and
      otherwise replaces only the first record with that key, and only when
      it differs; the count goes up exactly when the store changes. */
  lemma MergeItemCases<T>(m: Merged<T>, key: T -> string, item: T)
    ensures var r := MergeItem(m, key, item);
            var i := FindKey(m.data, key, key(item));
            && (i == -1 ==> r.data == m.data + [item] && r.updated == m.updated + 1)
            && (i >= 0 ==> |r.data| == |m.data| && r.data == m.data[i := item])
            && (r.updated == m.updated + 1 <==> r.data != m.data)
            && (r.updated == m.updated <==> r.data == m.data)
  {
    var i := FindKey(m.data, key, key(item));
    if i == -1 {
      assert |m.data + [item]| != |m.data|;
    } else if m.data[i] != item {
      assert m.data[i := item][i] != m.data[i];
    }
  }

  /** After a step, looking the new record's key up finds the new record. */
  lemma MergeItemFindsItem<T>(m: Merged<T>, key: T -> string, item: T)
    ensures var r := MergeItem(m, key, item);
            var j := FindKey(r.data, key, key(item));
            j >= 0 && r.data[j] == item
  {
    var r := MergeItem(m, key, item);
    var i := FindKey(m.data, key, key(item));
    var j := FindKey(r.data, key, key(item));
    if i == -1 {
      assert key(r.data[|m.data|]) == key(item);
      assert j == |m.data|;
    } else {
      assert key(r.data[i]) == key(item);
      assert forall k :: 0 <= k < i ==> r.data[k] == m.data[k];
      assert j == i;
    }
  }

  /** The count never exceeds the number of new records. */
  lemma {:induction false} MergeUpdatedBound<T>(data: seq<T>, key: T -> string, newData: seq<T>)
    ensures Merge(data, key, newData).updated <= |newData|
    decreases |newData|
  {
    if newData != [] {
      MergeUpdatedBound(data, key, newData[..|newData| - 1]);
    }
  }

  /** Records already in the store keep their position and key; a record
      whose key no new record has keeps its value too. */
  lemma {:induction false} MergeKeepsStore<T>(data: seq<T>, key: T -> string, newData: seq<T>)
    ensures |Merge(data, key, newData).data| >= |data|
    ensures forall j :: 0 <= j < |data| ==> key(Merge(data, key, newData).data[j]) == key(data[j])
    ensures forall j :: 0 <= j < |data| && (forall x :: x in newData ==> key(x) != key(data[j]))
              ==> Merge(data, key, newData).data[j] == data[j]
    decreases |newData|
  {
    if newData != [] {
      var init := newData[..|newData| - 1];
      var x := newData[|newData| - 1];
      MergeKeepsStore(data, key, init);
      var m := Merge(data, key, init);
      MergeItemCases(m, key, x);
      forall j | 0 <= j < |data| && (forall y :: y in newData ==> key(y) != key(data[j]))
        ensures Merge(data, key, newData).data[j] == data[j]
      {
        assert x in newData;
        forall y | y in init ensures key(y) != key(data[j]) {
          assert y in newData;
        }
      }
    }
  }

  /** No two records share a key. */
  ghost predicate KeysUnique<T>(d: seq<T>, key: T -> string) {
    forall a, b :: 0 <= a < b < |d| ==> key(d[a]) != key(d[b])
  }

  /** A store with at most one record per key keeps that property. */
  lemma {:induction false} MergeKeepsKeysUnique<T>(data: seq<T>, key: T -> string, newData: seq<T>)
    requires KeysUnique(data, key)
    ensures KeysUnique(Merge(data, key, newData).data, key)
    decreases |newData|
  {
    if newData != [] {
      var init := newData[..|newData| - 1];
      var x := newData[|newData| - 1];
      MergeKeepsKeysUnique(data, key, init);
      var m := Merge(data, key, init);
      MergeItemCases(m, key, x);
      var i := FindKey(m.data, key, key(x));
      var d := Merge(data, key, newData).data;
      forall a, b | 0 <= a < b < |d| ensures key(d[a]) != key(d[b]) {
        if i >= 0 {
          assert b < |m.data|;
          assert key(d[a]) == key(m.data[a]) by {
            if a == i { assert key(x) == key(m.data[i]); }
          }
          assert key(d[b]) == key(m.data[b]) by {
            if b == i { assert key(x) == key(m.data[i]); }
          }
          assert KeysUnique(m.data, key);
        } else if b == |m.data| {
          assert d[a] == m.data[a] && d[b] == x;
          assert key(m.data[a]) != key(x);
        } else {
          assert d[a] == m.data[a] && d[b] == m.data[b];
          assert KeysUnique(m.data, key);
        }
      }
    }
  }

  lemma MergeSnoc<T>(data: seq<T>, key: T -> string, newData: seq<T>, i: nat)
    requires i < |newData|
    ensures Merge(data, key, newData[..i + 1]) == MergeItem(Merge(data, key, newData[..i]), key, newData[i])
  {
    assert newData[..i + 1][..i] == newData[..i];
  }

  class DataManager {
    var state: AppState

    constructor(state: AppState)
      ensures this.state == state
    {
      this.state := state;
    }

    /** `mergeData`: merges `newData` into `state.allRawData` in place and
        returns how many records were added or replaced; the frame allows no
        other field of the state to change. */
    method MergeData(newData: seq<Item>) returns (itemsUpdated: nat)
      modifies state`allRawData
      ensures state.allRawData == Merge(old(state.allRawData), KeyOf, newData).data
      ensures itemsUpdated == Merge(old(state.allRawData), KeyOf, newData).updated
    {
      itemsUpdated := 0;
      ghost var start := state.allRawData;
      var i := 0;
      while i < |newData|
        invariant 0 <= i <= |newData|
        invariant Merge(start, KeyOf, newData[..i]) == Merged(state.allRawData, itemsUpdated)
      {
        var newItem := newData[i];
        var uniqueKey := GenerateUniqueKey(newItem);
        var existingIndex := FindKey(state.allRawData, KeyOf, uniqueKey);
        MergeSnoc(start, KeyOf, newData, i);
        MergeItemCases(Merged(state.allRawData, itemsUpdated), KeyOf, newItem);
        if existingIndex == -1 {
          state.allRawData := state.allRawData + [newItem];
          itemsUpdated := itemsUpdated + 1;
        } else {
          var existing := state.allRawData[existingIndex];
          if existing != newItem {
            state.allRawData := state.allRawData[existingIndex := newItem];
            itemsUpdated := itemsUpdated + 1;
          }
        }
        i := i + 1;
      }
      assert newData[..i] == newData;
    }
  }

  // ---------------------------------------------------------------------------
  // getUniqueValues

  /** `data.map(item => item[field])`. */
  function Column(data: seq<Item>, field: string): (vs: seq<Option<string>>)
    ensures |vs| == |data|
    ensures forall i :: 0 <= i < |data| ==> vs[i] == Get(data[i], field)
  {
    seq(|data|, i requires 0 <= i < |data| => Get(data[i], field))
  }

  /** `.filter(Boolean)` on text values. */
  function TruthyValues(vs: seq<Option<string>>): (r: seq<string>)
    ensures forall x :: x in r <==> Some(x) in vs && x != ""
    decreases |vs|
  {
    if vs == [] then []
    else
      var init := vs[..|vs| - 1];
      var v := vs[|vs| - 1];
      assert vs == init + [v];
      TruthyValues(init) + (if Truthy(v) then [v.value] else [])
  }

  /** `getUniqueValues(field)` over the store's records. */
  function GetUniqueValues(data: seq<Item>, field: string): seq<string> {
    Distinct(TruthyValues(Column(data, field)))
  }

  /** The values are distinct and non-empty, exactly those some record has,
      listed in the order they first appear. */
  lemma UniqueValuesSpec(data: seq<Item>, field: string)
    ensures NoDuplicates(GetUniqueValues(data, field))
    ensures forall x :: x in GetUniqueValues(data, field)
              <==> x != "" && exists i :: 0 <= i < |data| && Get(data[i], field) == Some(x)
    ensures var vs := TruthyValues(Column(data, field));
            var u := GetUniqueValues(data, field);
            forall i, j :: 0 <= i < j < |u| ==> FirstIndex(vs, u[i]) < FirstIndex(vs, u[j])
  {
    var col := Column(data, field);
    DistinctFirstOccurrenceOrder(TruthyValues(col));
    forall x | x != "" && exists i :: 0 <= i < |data| && Get(data[i], field) == Some(x)
      ensures Some(x) in col
    {
      var i :| 0 <= i < |data| && Get(data[i], field) == Some(x);
      assert col[i] == Some(x);
    }
  }

  // ---------------------------------------------------------------------------
  // filterData

  /** One `[key, value]` entry of a filters object. */
  datatype Criterion = Criterion(key: string, value: Option<string>)

  /** `value === 'all' || value === '' || !value`. */
  predicate Ignored(v: Option<string>) {
    !Truthy(v) || v == Some("all")
  }

  /** One entry: 'person' looks at the three roles, any other key at that property. */
  predicate Meets(item: Item, c: Criterion) {
    Ignored(c.value)
    || (if c.key == "person" then HasPerson(item, c.value.value) else Get(item, c.key) == c.value)
  }

  predicate MeetsAll(item: Item, cs: seq<Criterion>) {
    forall j :: 0 <= j < |cs| ==> Meets(item, cs[j])
  }

  function Matching(cs: seq<Criterion>): Item -> bool {
    item => MeetsAll(item, cs)
  }

  /** `filterData(filters)` over the store's records. */
  function FilterData(data: seq<Item>, cs: seq<Criterion>): seq<Item> {
    Filter(data, Matching(cs))
  }

  /** The result keeps store records in their order, exactly those that meet
      every entry. */
  lemma FilterDataSpec(data: seq<Item>, cs: seq<Criterion>)
    ensures IsSubseq(FilterData(data, cs), data)
    ensures forall x :: x in FilterData(data, cs) <==> x in data && MeetsAll(x, cs)
  {
    FilterIsSubseq(data, Matching(cs));
    FilterMembers(data, Matching(cs));
  }

  /** Entries that are all 'all', empty or missing select every record. */
  lemma FilterDataUnconstrained(data: seq<Item>, cs: seq<Criterion>)
    requires forall j :: 0 <= j < |cs| ==> Ignored(cs[j].value)
    ensures FilterData(data, cs) == data
  {
    FilterAll(data, Matching(cs));
  }

  /** One more entry can only narrow the result. */
  lemma FilterDataNarrows(data: seq<Item>, cs: seq<Criterion>, c: Criterion)
    ensures IsSubseq(FilterData(data, cs + [c]), FilterData(data, cs))
  {
    forall x | Matching(cs + [c])(x) ensures Matching(cs)(x) {
      forall j | 0 <= j < |cs| ensures Meets(x, cs[j]) {
        assert (cs + [c])[j] == cs[j];
      }
    }
    FilterMonotone(data, Matching(cs + [c]), Matching(cs));
  }

  /** A 'person' entry keeps exactly the records with that person in a role. */
  lemma FilterByPerson(data: seq<Item>, person: string)
    requires person != "" && person != "all"
    ensures forall x :: x in FilterData(data, [Criterion("person", Some(person))])
              <==> x in data && HasPerson(x, person)
  {
    var c := Criterion("person", Some(person));
    FilterDataSpec(data, [c]);
    forall x ensures MeetsAll(x, [c]) <==> HasPerson(x, person) {
      assert [c][0] == c;
    }
  }
}
