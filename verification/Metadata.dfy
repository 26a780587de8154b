/** The slice of Doctrine's entity metadata the form generator reads, and the
    specification of the form's field list built from it. */
module Metadata {

  /** The kind of an association mapping. */
  datatype RelationKind = OneToOne | ManyToOne | OneToMany | ManyToMany

  /** One association mapping: the association's field name and its kind. */
  datatype Association = Association(fieldName: string, kind: RelationKind)

  /** Entity metadata: the column field names in declaration order, the
      identifier field names (more than one for a composite key), whether the
      identifier is natural (assigned by the application rather than
      generated), and the association mappings in mapping order. */
  datatype ClassMetadata = ClassMetadata(
    fieldNames: seq<string>,
    identifier: seq<string>,
    identifierNatural: bool,
    associations: seq<Association>)

  /** `array_diff(s, remove)` on the values of the arrays: the elements of `s`
      that are not in `remove`, in their order in `s`. */
  function ArrayDiff(s: seq<string>, remove: seq<string>): (r: seq<string>)
    ensures |r| <= |s|
    ensures forall x :: x in r <==> x in s && x !in remove
  {
    if s == [] then []
    else if s[0] in remove then ArrayDiff(s[1..], remove)
    else [s[0]] + ArrayDiff(s[1..], remove)
  }

  /** `array_diff` keeps order: it filters each half of a concatenation separately. */
  lemma {:induction false} ArrayDiffAppend(a: seq<string>, b: seq<string>, remove: seq<string>)
    ensures ArrayDiff(a + b, remove) == ArrayDiff(a, remove) + ArrayDiff(b, remove)
  {
    if a == [] {
      assert a + b == b;
    } else {
      assert (a + b)[1..] == a[1..] + b;
      ArrayDiffAppend(a[1..], b, remove);
    }
  }

  /** `array_diff` leaves unchanged an array none of whose elements is removed. */
  lemma {:induction false} ArrayDiffKeepsAll(s: seq<string>, remove: seq<string>)
    requires forall i :: 0 <= i < |s| ==> s[i] !in remove
    ensures ArrayDiff(s, remove) == s
  {
    if s != [] {
      ArrayDiffKeepsAll(s[1..], remove);
    }
  }

  /** The names of the associations appended to the form's fields: every
      association whose kind is not one-to-many, in mapping order. Defined on
      the last mapping, as the generator's loop appends one at a time. */
  function KeptAssociationNames(assocs: seq<Association>): (names: seq<string>)
    ensures |names| <= |assocs|
    ensures forall x :: x in names <==>
              exists i :: 0 <= i < |assocs| && assocs[i].fieldName == x && assocs[i].kind != OneToMany
  {
    if assocs == [] then []
    else
      var last := assocs[|assocs| - 1];
      var init := assocs[..|assocs| - 1];
      assert forall i :: 0 <= i < |init| ==> init[i] == assocs[i];
      KeptAssociationNames(init) + (if last.kind != OneToMany then [last.fieldName] else [])
  }

  /** Keeping associations distributes over concatenation: the kept names of
      the earlier mappings come first, in order. */
  lemma {:induction false} KeptAssociationNamesAppend(a: seq<Association>, b: seq<Association>)
    ensures KeptAssociationNames(a + b) == KeptAssociationNames(a) + KeptAssociationNames(b)
  {
    if b == [] {
      assert a + b == a;
    } else {
      var b' := b[..|b| - 1];
      assert (a + b)[..|a + b| - 1] == a + b';
      assert (a + b)[|a + b| - 1] == b[|b| - 1];
      KeptAssociationNamesAppend(a, b');
    }
  }

  /** The column part of the form's fields: all declared column field names,
      minus the identifier fields unless the identifier is natural. */
  function ColumnFields(m: ClassMetadata): seq<string> {
    if m.identifierNatural then m.fieldNames else ArrayDiff(m.fieldNames, m.identifier)
  }

  /** The form's field list: the column fields followed by the names of the
      associations that are not one-to-many. */
  function FormFields(m: ClassMetadata): seq<string> {
    ColumnFields(m) + KeptAssociationNames(m.associations)
  }

  /** With a natural identifier every declared column field is kept, in declared
      order, ahead of every association name. */
  lemma NaturalIdentifierKeepsColumns(m: ClassMetadata)
    requires m.identifierNatural
    ensures |FormFields(m)| >= |m.fieldNames|
    ensures FormFields(m)[..|m.fieldNames|] == m.fieldNames
    ensures FormFields(m)[|m.fieldNames|..] == KeptAssociationNames(m.associations)
  {
  }

  /** With a generated identifier no identifier field is among the column
      fields; an identifier name can appear in the result only as the name of
      a kept association (a derived identity), so when no association is an
      identifier field, no identifier field appears at all. */
  lemma GeneratedIdentifierExcluded(m: ClassMetadata)
    requires !m.identifierNatural
    ensures forall x :: x in ColumnFields(m) ==> x !in m.identifier
    ensures forall x :: x in FormFields(m) && x in m.identifier ==>
              x in KeptAssociationNames(m.associations)
    ensures (forall i :: 0 <= i < |m.associations| ==> m.associations[i].fieldName !in m.identifier) ==>
              forall x :: x in FormFields(m) ==> x !in m.identifier
  {
    forall x | x in FormFields(m) && x in m.identifier
      ensures x in KeptAssociationNames(m.associations)
    {
      assert x !in ColumnFields(m);
    }
  }

  /** The column fields keep every declared field that is not an identifier
      field, in declared order: with a single generated identifier and no
      associations the result is the declared order without that identifier. */
  lemma GeneratedIdentifierKeepsOthers(m: ClassMetadata)
    requires !m.identifierNatural
    ensures forall x :: x in m.fieldNames && x !in m.identifier ==> x in FormFields(m)
    ensures (forall i :: 0 <= i < |m.fieldNames| ==> m.fieldNames[i] !in m.identifier) ==>
              ColumnFields(m) == m.fieldNames
  {
    if forall i :: 0 <= i < |m.fieldNames| ==> m.fieldNames[i] !in m.identifier {
      ArrayDiffKeepsAll(m.fieldNames, m.identifier);
    }
  }

  /** After the column fields come exactly the kept association names: no
      one-to-many association is appended, every other one is. */
  lemma AssociationsAfterColumns(m: ClassMetadata)
    ensures |FormFields(m)| >= |ColumnFields(m)|
    ensures FormFields(m)[..|ColumnFields(m)|] == ColumnFields(m)
    ensures forall i :: 0 <= i < |m.associations| && m.associations[i].kind != OneToMany ==>
              m.associations[i].fieldName in FormFields(m)[|ColumnFields(m)|..]
    ensures forall x :: x in FormFields(m)[|ColumnFields(m)|..] ==>
              exists i :: 0 <= i < |m.associations| && m.associations[i].fieldName == x &&
                          m.associations[i].kind != OneToMany
  {
    assert FormFields(m)[|ColumnFields(m)|..] == KeptAssociationNames(m.associations);
  }

  /** A name that belongs only to one-to-many associations (and is not a
      column field) never appears in the form's fields. */
  lemma OneToManyNeverAppended(m: ClassMetadata, name: string)
    requires name !in m.fieldNames
    requires forall i :: 0 <= i < |m.associations| && m.associations[i].fieldName == name ==>
               m.associations[i].kind == OneToMany
    ensures name !in FormFields(m)
  {
  }

  /** The form's fields are never more than the declared columns plus the
      associations, and every one of them is a declared column or an
      association name. */
  lemma FormFieldsBounded(m: ClassMetadata)
    ensures |FormFields(m)| <= |m.fieldNames| + |m.associations|
    ensures forall x :: x in FormFields(m) ==>
              x in m.fieldNames || exists i :: 0 <= i < |m.associations| && m.associations[i].fieldName == x
  {
  }
}
