/**
 The text of the `.pending` file: what `begin` writes before it acknowledges an
 effect, and what the gate's constructor accepts after a restart.
 */
module PendingRecord {
  import opened Wrappers

  datatype Record = Record(admission: string, effect: string)

  predicate HexChar(c: char) {
    'a' <= c <= 'f' || '0' <= c <= '9'
  }

  /** `[a-f0-9-]{32,36}` */
  predicate ValidAdmission(id: string) {
    32 <= |id| <= 36 && forall i | 0 <= i < |id| :: HexChar(id[i]) || id[i] == '-'
  }

  /** `[a-f0-9]{32}` */
  predicate ValidEffect(id: string) {
    |id| == 32 && forall i | 0 <= i < |id| :: HexChar(id[i])
  }

  const HEAD: string := "{\"admission_id\": \""
  const MIDDLE: string := "\", \"effect_id\": \""
  const TAIL: string := "\"}"

  function Write(r: Record): string {
    HEAD + r.admission + MIDDLE + r.effect + TAIL
  }

  /** Reads the layout that Write produces and applies the two identity tests. */
  function Read(text: string): Option<Record> {
    var room := |text| - |HEAD| - |MIDDLE| - 32 - |TAIL|;
    if room < 0 then None
    else
      var effectAt := |HEAD| + room + |MIDDLE|;
      var r := Record(text[|HEAD|..|HEAD| + room], text[effectAt..effectAt + 32]);
      if ValidAdmission(r.admission) && ValidEffect(r.effect) && text == Write(r) then Some(r) else None
  }

  predicate Valid(r: Record) {
    ValidAdmission(r.admission) && ValidEffect(r.effect)
  }

  lemma ReadBack(r: Record)
    requires Valid(r)
    ensures Read(Write(r)) == Some(r)
    ensures |Write(r)| <= 1024
  {
    var text := Write(r);
    var room := |r.admission|;
    assert text[|HEAD|..|HEAD| + room] == r.admission;
    var effectAt := |HEAD| + room + |MIDDLE|;
    assert text[effectAt..effectAt + 32] == r.effect;
  }

  /** Only the last character of a record closes the object. */
  lemma OneBrace(r: Record, i: nat)
    requires Valid(r) && i < |Write(r)| - 1
    ensures Write(r)[i] != '}'
  {
    var text := Write(r);
    assert text == (HEAD + r.admission + MIDDLE) + (r.effect + TAIL);
    if i < |HEAD| {
      assert text[i] == HEAD[i];
    } else if i < |HEAD| + |r.admission| {
      assert text[i] == r.admission[i - |HEAD|];
    } else if i < |HEAD| + |r.admission| + |MIDDLE| {
      assert text[i] == MIDDLE[i - |HEAD| - |r.admission|];
    } else {
      var j := i - |HEAD| - |r.admission| - |MIDDLE|;
      assert text[i] == (r.effect + TAIL)[j];
    }
  }

  /** A write that stopped part way leaves text that no restart accepts: nothing, or an object that is opened and
      never closed, whatever layout a reader allows. */
  lemma TornIsUnreadable(r: Record, length: nat)
    requires Valid(r) && length < |Write(r)|
    ensures var torn := Write(r)[..length];
            Read(torn).None? && '}' !in torn && (torn == "" || torn[0] == '{')
  {
    var torn := Write(r)[..length];
    forall i | 0 <= i < length ensures torn[i] != '}' {
      OneBrace(r, i);
    }
    assert forall other: Record :: '}' in Write(other) by {
      forall other: Record ensures '}' in Write(other) {
        assert Write(other)[|Write(other)| - 1] == '}';
      }
    }
  }
}
