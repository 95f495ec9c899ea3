/** The stage a diagnostic comes from (src/error_stage.rs). */
module ErrorStages {

  datatype ErrorStage = Compile | Runtime

  /** The `Display` rendering of a stage. */
  function StageName(s: ErrorStage): string {
    match s
    case Compile => "Compile"
    case Runtime => "Runtime"
  }

  /** The rendering names the stage: distinct stages render differently. */
  lemma StageNameInjective(a: ErrorStage, b: ErrorStage)
    ensures StageName(a) == StageName(b) ==> a == b
  {
  }
}
