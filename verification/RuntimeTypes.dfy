/** The records of a managed runtime plan (internal/managedruntime/types.go). */
module RuntimeTypes {

  type ComponentId = string
  type GenerationId = string
  type Digest = string

  const MAX_PLAN_ID: nat := 128
  const MAX_COMPONENT_COUNT: nat := 64

  datatype InstallMethod = Archive | Npm | Pnpm | UvTool

  /** `digest` stands for the lower-cased SHA-256 text; an empty install method
      has already been read as Archive (EffectiveInstallMethod). */
  datatype ComponentPlan = ComponentPlan(
    id: ComponentId,
    version: string,
    source: string,
    installMethod: InstallMethod,
    package: string,
    entryPoint: string,
    digest: Digest,
    platform: string,
    architecture: string,
    dependencies: seq<ComponentId>)

  datatype Plan = Plan(
    id: string,
    platform: string,
    architecture: string,
    components: seq<ComponentPlan>)
  {
    /** The part of ResolutionPlan.Validate the algorithms rely on. */
    predicate Valid() {
      && 0 < |id| <= MAX_PLAN_ID
      && platform != "" && architecture != ""
      && 0 < |components| <= MAX_COMPONENT_COUNT
      && (forall i, j :: 0 <= i < j < |components| ==> components[i].id != components[j].id)
    }
  }
}
