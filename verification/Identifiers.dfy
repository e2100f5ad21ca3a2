/** Opaque identifiers and the four-part binding of a remote participant. */
module Identifiers {

  predicate Control(c: char) {
    c < ' ' || '\U{7f}' <= c <= '\U{9f}'
  }

  /** Length in UTF-8, whose byte order agrees with the order of characters. */
  function Utf8Length(id: string): nat {
    if id == [] then 0
    else
      var c := id[|id| - 1];
      Utf8Length(id[..|id| - 1])
      + (if c < '\U{80}' then 1 else if c < '\U{800}' then 2 else if c < '\U{10000}' then 3 else 4)
  }

  predicate ValidId(id: string) {
    id != [] && Utf8Length(id) <= 256 && forall i :: 0 <= i < |id| ==> !Control(id[i])
  }

  datatype Binding = Binding(worker: string, surface: string, attachment: string, participant: string)

  predicate ValidBinding(b: Binding) {
    ValidId(b.worker) && ValidId(b.surface) && ValidId(b.attachment) && ValidId(b.participant)
  }
}
