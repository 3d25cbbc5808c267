/**
 * The patient-record controller for the "genes" list: it loads the patient's gene objects
 * into an ordered list of {gene, comments} entries and writes that list into the patient's
 * JSON export, filtered by the fields the caller selected.
 */
module GeneListControllers {
  import opened Wrappers

  /** One list entry: property name to value. */
  type Entry = map<string, string>

  const ControllerName: string := "genes"
  const GenesEnablingField: string := "genes"
  const CommentsEnablingField: string := "genes_comments"
  const GeneKey: string := "gene"
  const CommentsKey: string := "comments"

  /** The name the patient's data is stored under. */
  function Name(): (n: string)
    ensures n == "genes"
  {
    ControllerName
  }

  /** The key the list is written under in the JSON export: the controller's name. */
  function JsonPropertyName(): (k: string)
    ensures k == Name()
  {
    ControllerName
  }

  /** The properties read from every gene object: gene and comments, in that order. */
  function Properties(): (ps: seq<string>)
    ensures |ps| == 2 && "gene" in ps && "comments" in ps
  {
    [GeneKey, CommentsKey]
  }

  /** Properties holding booleans: none. */
  function BooleanFields(): (fs: seq<string>)
    ensures |fs| == 0
  {
    []
  }

  /** Properties holding vocabulary codes: none. */
  function CodeFields(): (fs: seq<string>)
    ensures |fs| == 0
  {
    []
  }

  // ---------------------------------------------------------------------------
  // load

  /** A gene object of the patient document: its string fields by name. */
  datatype GeneObject = GeneObject(fields: map<string, string>)

  /** Reading the patient document either fails or yields its gene objects (null when it has none). */
  datatype PatientDocument = AccessFailed | Loaded(geneObjects: Option<seq<GeneObject>>)

  /** The entry for one gene object: its gene and comments fields, those it has. */
  function EntryOf(o: GeneObject): (e: Entry)
    ensures e.Keys == o.fields.Keys * {GeneKey, CommentsKey}
    ensures forall k :: k in e ==> e[k] == o.fields[k]
  {
    map k | k in o.fields && k in Properties() :: o.fields[k]
  }

  /**
   * Loads the gene list: null when the document cannot be read or has no gene objects,
   * otherwise one entry per gene object, in document order.
   */
  method Load(doc: PatientDocument) returns (data: Option<seq<Entry>>)
    ensures doc.AccessFailed? ==> data.None?
    ensures doc.Loaded? && (doc.geneObjects.None? || doc.geneObjects.value == []) ==> data.None?
    ensures doc.Loaded? && doc.geneObjects.Some? && doc.geneObjects.value != [] ==>
      data.Some? && |data.value| == |doc.geneObjects.value|
      && forall i :: 0 <= i < |data.value| ==> data.value[i] == EntryOf(doc.geneObjects.value[i])
  {
    if doc.AccessFailed? || doc.geneObjects.None? || doc.geneObjects.value == [] {
      return None;
    }
    var objects := doc.geneObjects.value;
    var entries: seq<Entry> := [];
    for i := 0 to |objects|
      invariant |entries| == i
      invariant forall j :: 0 <= j < i ==> entries[j] == EntryOf(objects[j])
    {
      entries := entries + [EntryOf(objects[i])];
    }
    data := Some(entries);
  }

  /** Entry i of a load holds gene object i's gene and comments values. */
  lemma LoadedEntryFields(o: GeneObject)
    requires GeneKey in o.fields && CommentsKey in o.fields
    ensures EntryOf(o) == map[GeneKey := o.fields[GeneKey], CommentsKey := o.fields[CommentsKey]]
  {
  }

  // ---------------------------------------------------------------------------
  // writeJSON

  /** The patient, as far as this controller sees it: the data stored under each controller's name. */
  datatype Patient = Patient(data: map<string, seq<Entry>>)

  /** The patient's data for a controller, or null. */
  function GetData(p: Patient, name: string): Option<seq<Entry>>
  {
    if name in p.data then Some(p.data[name]) else None
  }

  /** The JSON object being exported; writeJSON adds to it in place. */
  class JsonObject {
    var members: map<string, seq<Entry>>

    constructor ()
      ensures members == map[]
    {
      members := map[];
    }
  }

  /** A field is selected when it is in the selection; a null selection selects everything. */
  predicate Selected(fields: Option<set<string>>, f: string)
  {
    fields.None? || f in fields.value
  }

  /** The JSON form of one entry: without its comments unless the comments field is selected. */
  function JsonEntry(e: Entry, fields: Option<set<string>>): (j: Entry)
    ensures Selected(fields, CommentsEnablingField) ==> j == e
    ensures !Selected(fields, CommentsEnablingField) ==> CommentsKey !in j
    ensures forall k :: k != CommentsKey ==> (k in j <==> k in e)
    ensures forall k :: k in j ==> k in e && j[k] == e[k]
  {
    if Selected(fields, CommentsEnablingField) then e else e - {CommentsKey}
  }

  /**
   * What writeJSON puts under "genes": nothing unless the genes field is selected and the
   * data is non-null and non-empty; otherwise the entries in order, each in its JSON form.
   */
  function GenesArray(data: Option<seq<Entry>>, fields: Option<set<string>>): (r: Option<seq<Entry>>)
    ensures r.Some? <==> Selected(fields, GenesEnablingField) && data.Some? && data.value != []
    ensures r.Some? ==> |r.value| == |data.value|
    ensures r.Some? ==> forall i :: 0 <= i < |r.value| ==> r.value[i] == JsonEntry(data.value[i], fields)
  {
    if Selected(fields, GenesEnablingField) && data.Some? && data.value != [] then
      Some(seq(|data.value|, i requires 0 <= i < |data.value| => JsonEntry(data.value[i], fields)))
    else None
  }

  /** Writes the patient's gene list into `json` under "genes", as GenesArray says. */
  method WriteJSON(patient: Patient, json: JsonObject, fields: Option<set<string>>)
    modifies json
    ensures GenesArray(GetData(patient, Name()), fields).None? ==> json.members == old(json.members)
    ensures GenesArray(GetData(patient, Name()), fields).Some? ==>
      json.members == old(json.members)[JsonPropertyName() := GenesArray(GetData(patient, Name()), fields).value]
  {
    if !Selected(fields, GenesEnablingField) {
      return;
    }
    var data := GetData(patient, Name());
    if data.None? || data.value == [] {
      return;
    }
    var entries := data.value;
    var container: seq<Entry> := [];
    for i := 0 to |entries|
      invariant |container| == i
      invariant forall j :: 0 <= j < i ==> container[j] == JsonEntry(entries[j], fields)
    {
      var item := entries[i];
      if !Selected(fields, CommentsEnablingField) {
        item := item - {CommentsKey};
      }
      container := container + [item];
    }
    assert container == GenesArray(data, fields).value;
    json.members := json.members[JsonPropertyName() := container];
  }

  // ---------------------------------------------------------------------------
  // Properties of the filter

  /** Nothing is written for null data, empty data, or a selection without the genes field. */
  lemma NothingWritten(data: Option<seq<Entry>>, fields: Option<set<string>>)
    ensures GenesArray(None, fields).None?
    ensures GenesArray(Some([]), fields).None?
    ensures fields.Some? && GenesEnablingField !in fields.value ==> GenesArray(data, fields).None?
  {
  }

  /** With the comments field selected (or no selection at all) the entries are written unchanged. */
  lemma AllValuesWritten(data: seq<Entry>, fields: Option<set<string>>)
    requires data != []
    requires Selected(fields, GenesEnablingField) && Selected(fields, CommentsEnablingField)
    ensures GenesArray(Some(data), fields) == Some(data)
  {
    var r := GenesArray(Some(data), fields).value;
    assert |r| == |data|;
    forall i | 0 <= i < |r| ensures r[i] == data[i] {
      assert r[i] == JsonEntry(data[i], fields);
    }
    assert r == data;
  }

  /** Without the comments field, every written entry keeps its gene and loses its comments. */
  lemma CommentsRemoved(data: seq<Entry>, fields: set<string>)
    requires data != []
    requires GenesEnablingField in fields && CommentsEnablingField !in fields
    ensures GenesArray(Some(data), Some(fields)).Some?
    ensures forall i :: 0 <= i < |data| ==>
      CommentsKey !in GenesArray(Some(data), Some(fields)).value[i]
      && (GeneKey in data[i] ==>
            GeneKey in GenesArray(Some(data), Some(fields)).value[i]
            && GenesArray(Some(data), Some(fields)).value[i][GeneKey] == data[i][GeneKey])
  {
    var r := GenesArray(Some(data), Some(fields)).value;
    forall i | 0 <= i < |data|
      ensures CommentsKey !in r[i] && (GeneKey in data[i] ==> GeneKey in r[i] && r[i][GeneKey] == data[i][GeneKey])
    {
      assert r[i] == JsonEntry(data[i], Some(fields));
    }
  }

  /** Loading then writing with genes and comments selected exports every gene object's two fields, in order. */
  lemma LoadThenWrite(objects: seq<GeneObject>, entries: seq<Entry>, fields: Option<set<string>>)
    requires objects != [] && |entries| == |objects|
    requires forall i :: 0 <= i < |objects| ==> entries[i] == EntryOf(objects[i])
    requires Selected(fields, GenesEnablingField) && Selected(fields, CommentsEnablingField)
    ensures GenesArray(Some(entries), fields).Some?
    ensures forall i, k :: 0 <= i < |objects| && k in Properties() && k in objects[i].fields ==>
      k in GenesArray(Some(entries), fields).value[i]
      && GenesArray(Some(entries), fields).value[i][k] == objects[i].fields[k]
  {
    AllValuesWritten(entries, fields);
  }
}
