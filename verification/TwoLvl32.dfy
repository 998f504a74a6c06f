/** Two-level representations: one list of cubes per output. */
module TwoLvl32 {
  import opened Bits
  import opened Cube32
  import opened Esop

  datatype Kind = SOP | ESOP | UNDEF

  datatype TwoLvl = TwoLvl(kind: Kind, nInputs: nat, cubes: seq<seq<Cube>>)

  /** Every cube is canonical over the declared inputs. */
  ghost predicate CubesWithin(f: TwoLvl) {
    forall k | 0 <= k < |f.cubes| :: AllOver(f.cubes[k], Below(f.nInputs))
  }

  /** And there are at most 32 of these. */
  ghost predicate WellFormed(f: TwoLvl) {
    f.nInputs <= WIDTH && CubesWithin(f)
  }
}
