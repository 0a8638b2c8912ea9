/** Selection of the tag-manager container id from the page's environment descriptor. */
module ContainerId {
  import opened Wrappers

  const ProductionId: string := "GTM-5M39N8J"
  const FallbackId: string := "GTM-W4VMRHV"

  /** `env` is the descriptor's `env` field, `None` when the descriptor lacks it;
      the descriptor object itself is assumed to exist. */
  function GetId(env: Option<string>): (id: string)
    ensures id == ProductionId || id == FallbackId
    ensures id == ProductionId <==> env == Some("production")
  {
    if env == Some("production") then ProductionId else FallbackId
  }
}
