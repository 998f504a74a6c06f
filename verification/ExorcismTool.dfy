/** The minimising tool: read a PLA text and minimise every output. */
module ExorcismTool {
  import opened Cube32
  import opened TwoLvl32
  import opened ExorcismRuns
  import opened Exorcism
  import opened Pla
  import opened PlaReading

  /** For every text, whatever its header declares: a reading that finishes is minimised, each output on its own; one
      that does not finish stays so. */
  method MinimisePla(text: string) returns (outcome: Outcome)
    ensures outcome.Finished? <==> ReadText(text).Finished?
    ensures !outcome.Finished? ==> outcome == ReadText(text)
    ensures outcome.Finished? ==>
      var f, r := ReadText(text).f, outcome.f;
      && CubesWithin(r) && r.kind == f.kind && r.nInputs == f.nInputs && |r.cubes| == |f.cubes|
      && forall k | 0 <= k < |r.cubes| ::
        Minimised(f.cubes[k], r.cubes[k], Below(f.nInputs)) && Improved(f.cubes[k], r.cubes[k])
  {
    hide ReadText, Minimised, Improved, CubesWithin;
    outcome := ReadPla(text);
    if outcome.Finished? {
      FinishedWithin(text);
      var result := Exorcise(outcome.f);
      outcome := Finished(result);
    }
  }
}
