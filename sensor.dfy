/** The `Sensor` entity of sds011.py: one measured quantity, its label and its last state. */
module Entities {
  import opened Wrappers

  /** Python's `" ".join(words)`. */
  function JoinWords(words: seq<string>): string
  {
    if |words| == 0 then ""
    else if |words| == 1 then words[0]
    else words[0] + " " + JoinWords(words[1..])
  }

  /** Python's `filter(bool, parts)` on optional strings: drops `None` and "". */
  function Truthy(parts: seq<Option<string>>): seq<string>
  {
    if |parts| == 0 then []
    else (if parts[0].Some? && parts[0].value != "" then [parts[0].value] else []) + Truthy(parts[1..])
  }

  /** Joining two words puts one space between them. */
  lemma JoinPair(a: string, b: string)
    ensures JoinWords([a, b]) == a + " " + b
  {
    assert [a, b][1..] == [b];
  }

  /** The parts `filter(bool, (name, kind))` keeps, in order. */
  lemma NameParts(name: Option<string>, kind: string)
    ensures Truthy([name, Some(kind)])
      == (if name.Some? && name.value != "" then [name.value] else []) + (if kind != "" then [kind] else [])
    ensures name.Some? ==> JoinWords([name.value, kind]) == name.value + " " + kind
  {
    assert [name, Some(kind)][1..] == [Some(kind)];
    assert [Some(kind)][1..] == [];
    assert Truthy([Some(kind)]) == (if kind != "" then [kind] else []) + Truthy([]);
    if name.Some? { JoinPair(name.value, kind); }
  }

  class Sensor {
    /** The configured display name, `None` when not configured. */
    const name: Option<string>
    /** The measured quantity, "PM2.5" or "PM10". */
    const kind: string
    /** The last published value, `None` until the first one. */
    var state: Option<real>

    constructor (name: Option<string>, kind: string)
      ensures this.name == name && this.kind == kind && state == None
    {
      this.name := name;
      this.kind := kind;
      state := None;
    }

    /** The host-visible label: the configured name and the kind, joined by a space, empty parts dropped. */
    function Name(): (r: string)
      ensures name.Some? && name.value != "" && kind != "" ==> r == name.value + " " + kind
      ensures (name.None? || name.value == "") ==> r == kind
      ensures name.Some? && name.value != "" && kind == "" ==> r == name.value
    {
      NameParts(name, kind);
      JoinWords(Truthy([name, Some(kind)]))
    }

    /** The state setter: the getter, the `state` field, returns `value` afterwards. */
    method SetState(value: Option<real>)
      modifies this
      ensures state == value
    {
      state := value;
    }
  }
}
