/**
 * The pure part of loading a shapefile: turning the reader's field
 * descriptors into the list of attribute names that records are indexed by.
 */
module Loader {
  import opened PyList

  /** One `.dbf` field descriptor `[name, type, size, decimals]`. */
  datatype FieldDescriptor = FieldDescriptor(name: string, fieldType: char, size: nat, decimals: nat)

  /** The name of the attribute that carries a feature's classification. */
  const ClassificationField: string := "Id_text"

  /** The name of each descriptor, in order. */
  function Names(descriptors: seq<FieldDescriptor>): (names: seq<string>)
    ensures |names| == |descriptors|
    ensures forall i :: 0 <= i < |names| ==> names[i] == descriptors[i].name
  {
    if descriptors == [] then [] else [descriptors[0].name] + Names(descriptors[1..])
  }

  /**
   * The field names of a dataset: the first descriptor (the deletion flag)
   * is dropped and every remaining one is projected to its name. An empty
   * descriptor list gives no names, as the Python slice `fields[1:]` does.
   */
  function FieldNames(fields: seq<FieldDescriptor>): (names: seq<string>)
    ensures |names| == if fields == [] then 0 else |fields| - 1
    ensures forall i :: 0 <= i < |names| ==> names[i] == fields[i + 1].name
  {
    if fields == [] then [] else Names(fields[1..])
  }

  /**
   * Looking a name up among the field names finds the first descriptor after
   * the deletion flag that carries that name; the deletion flag itself is
   * never found, whatever its name.
   */
  lemma LookupSkipsDeletionFlag(fields: seq<FieldDescriptor>, key: string)
    ensures IndexOf(FieldNames(fields), key).Some? <==>
            exists j :: 1 <= j < |fields| && fields[j].name == key
    ensures IndexOf(FieldNames(fields), key).Some? ==>
            var i := IndexOf(FieldNames(fields), key).value;
            i + 1 < |fields| && fields[i + 1].name == key &&
            forall j :: 1 <= j <= i ==> fields[j].name != key
  {
    var names := FieldNames(fields);
    if exists j :: 1 <= j < |fields| && fields[j].name == key {
      var j :| 1 <= j < |fields| && fields[j].name == key;
      assert names[j - 1] == key;
    }
    if IndexOf(names, key).Some? {
      var i := IndexOf(names, key).value;
      forall j | 1 <= j <= i ensures fields[j].name != key {
        assert names[j - 1] == fields[j].name;
      }
    }
  }
}
