/** The opcode/method dictionary record (HVLookUp.kt): the vectors are
    modelled as integer sequences, since the loader only ever stores +1/-1. */
module Lookup {

  datatype HvLookupFloat = HvLookupFloat(
    opcodes: map<string, seq<int>>,
    methods: map<string, seq<int>>,
    dimension: int)
}
