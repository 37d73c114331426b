/** The two in-place note updates shared by `add-note` and `edit-card`:
    writing field values by position and appending tags. */
module Note {

  /** `values` written over the first positions of `fields`. */
  function Overwritten(fields: seq<string>, values: seq<string>): (r: seq<string>)
    requires |values| <= |fields|
    ensures |r| == |fields|
    ensures forall i | 0 <= i < |values| :: r[i] == values[i]
    ensures forall i | |values| <= i < |fields| :: r[i] == fields[i]
  {
    values + fields[|values|..]
  }

  /** Writing the same values twice leaves what writing them once left. */
  lemma OverwrittenIdempotent(fields: seq<string>, values: seq<string>)
    requires |values| <= |fields|
    ensures Overwritten(Overwritten(fields, values), values) == Overwritten(fields, values)
  {
  }

  /** Writing a longer list of values extends writing its prefix by one position. */
  lemma OverwrittenStep(fields: seq<string>, values: seq<string>, i: nat)
    requires i < |values| <= |fields|
    ensures Overwritten(fields, values[..i])[i := values[i]] == Overwritten(fields, values[..i + 1])
  {
  }

  /** A note: its field values, one per field of its note type, and its tags. */
  class Note {
    const fields: array<string>
    var tags: seq<string>

    constructor (fieldValues: seq<string>, tags: seq<string>)
      ensures fresh(fields) && fields[..] == fieldValues && this.tags == tags
    {
      fields := new string[|fieldValues|](i requires 0 <= i < |fieldValues| => fieldValues[i]);
      this.tags := tags;
    }

    /** `Note::set_field` of the collection library, where the index is in range. */
    method SetField(i: nat, value: string)
      requires i < fields.Length
      modifies fields
      ensures fields[..] == old(fields[..])[i := value]
    {
      fields[i] := value;
    }

    /** `set_fields`: the i-th value goes to field i; a value past the last
        field aborts the command, so there may not be more values than fields. */
    method SetFields(values: seq<string>)
      requires |values| <= fields.Length
      modifies fields
      ensures fields[..] == Overwritten(old(fields[..]), values)
      ensures tags == old(tags)
    {
      for i := 0 to |values|
        invariant fields[..] == Overwritten(old(fields[..]), values[..i])
      {
        OverwrittenStep(old(fields[..]), values, i);
        SetField(i, values[i]);
      }
      assert values[..|values|] == values;
    }

    /** `add_tags`: the new tags go after the existing ones, in order. */
    method AddTags(newTags: seq<string>)
      modifies this
      ensures tags == old(tags) + newTags
      ensures fields[..] == old(fields[..])
    {
      tags := tags + newTags;
    }

    /** The tag update of `edit-card`: clear the tags, then add the given ones. */
    method ReplaceTags(newTags: seq<string>)
      modifies this
      ensures tags == newTags
      ensures fields[..] == old(fields[..])
    {
      tags := [];
      AddTags(newTags);
    }
  }
}
