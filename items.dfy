/** A report record as the dashboard receives it: a JSON object whose
    properties are kept in insertion order (the order `Object.keys` and
    `JSON.stringify` see). A property that is absent reads as `undefined`. */
module Items {
  import opened Wrappers
  import opened Text
  import opened Seqs

  datatype Field = Field(key: string, value: string)

  datatype Item = Item(fields: seq<Field>)

  // Property names of a report record.
  const ID: string := "ID"
  const ID_CORREGIDO: string := "ID_Corregido"
  const DOCUMENTO: string := "Documento"
  const ESTADO: string := "Estado"
  const SEMANA: string := "Semana"
  const FECHA_REPORTE: string := "FechaReporte"
  const TEMATICA: string := "Tematica"
  const ITEM: string := "Item"
  const ELABORADOR: string := "Elaborador"
  const REVISOR: string := "Revisor"
  const COORDINADOR: string := "Coordinador"
  const SUBCONTRATO: string := "Subcontrato"

  // Values of `Documento` and `Estado` the analytics single out.
  const ADC: string := "ADC"
  const PAC: string := "PAC"
  const INCORPORADA: string := "Incorporada"
  const EN_REVISOR_EDITORIAL: string := "En revisor editorial"
  const EN_ELABORACION: string := "En elaboración"
  const EN_ELABORACION_CARTOGRAFIA: string := "En elaboración cartografía"
  const PENDIENTE: string := "Pendiente"

  /** `Object.keys(item)`. */
  function Keys(item: Item): seq<string> {
    seq(|item.fields|, i requires 0 <= i < |item.fields| => item.fields[i].key)
  }

  /** `item[key]`: the value of the first property named `key`, `None` when
      there is none. */
  function Get(item: Item, key: string): Option<string>
    decreases |item.fields|
  {
    if item.fields == [] then None
    else if item.fields[0].key == key then Some(item.fields[0].value)
    else Get(Item(item.fields[1..]), key)
  }

  /** A property reads as defined exactly when the record has it, and then
      its value is one of the record's fields. */
  lemma {:induction false} GetDefined(item: Item, key: string)
    ensures Get(item, key).Some? <==> key in Keys(item)
    ensures Get(item, key).Some? ==> Field(key, Get(item, key).value) in item.fields
    decreases |item.fields|
  {
    if item.fields != [] && item.fields[0].key == key {
      assert Keys(item)[0] == key;
    } else if item.fields != [] {
      var rest := Item(item.fields[1..]);
      GetDefined(rest, key);
      assert Keys(item) == [item.fields[0].key] + Keys(rest);
    }
  }

  /** `item.Estado === state`. */
  predicate HasState(item: Item, state: string) {
    Get(item, ESTADO) == Some(state)
  }

  /** `item.Documento === doc`. */
  predicate HasDocument(item: Item, doc: string) {
    Get(item, DOCUMENTO) == Some(doc)
  }

  /** `item.Elaborador === person || item.Revisor === person || item.Coordinador === person`. */
  predicate HasPerson(item: Item, person: string) {
    Get(item, ELABORADOR) == Some(person)
    || Get(item, REVISOR) == Some(person)
    || Get(item, COORDINADOR) == Some(person)
  }

  /** `item => item.Estado === state`. */
  function StateIs(state: string): Item -> bool {
    r => HasState(r, state)
  }

  /** `records.filter(item => item.Estado === state).length`. */
  function CountState(rs: seq<Item>, state: string): nat {
    |Filter(rs, StateIs(state))|
  }

  /** Two different states are never counted for the same record. */
  lemma CountStatesDisjoint(rs: seq<Item>, a: string, b: string)
    requires a != b
    ensures CountState(rs, a) + CountState(rs, b) <= |rs|
  {
    FilterDisjoint(rs, StateIs(a), StateIs(b));
  }
}
