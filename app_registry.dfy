/**
 The application registry as the window manager sees it: each entry's id and
 name, and whether it declares a settings view and static info. The views
 themselves are opaque.
 */
module AppRegistry {
  import opened Wrappers
  import opened Lists

  datatype AppConfig = AppConfig(id: int, name: string, hasSettings: bool, hasInfo: bool)

  /** `appConfigs.find(a => a.id === appId)` */
  function FindApp(registry: seq<AppConfig>, appId: int): (r: Option<AppConfig>)
    ensures r.Some? ==> r.value in registry && r.value.id == appId
    ensures r.None? <==> forall i :: 0 <= i < |registry| ==> registry[i].id != appId
  {
    Find(registry, (a: AppConfig) => a.id == appId)
  }
}
