/**
 * The widget dispatch of `Widgets` in src/components/widgets.tsx: which
 * widgets a service card shows.
 */
module Widgets {
  import opened Wrappers
  import opened ServiceTypes

  datatype WidgetKind = HealthWidget | PlexWidget | SonarrWidget | BeszelHubWidget | RadarrWidget

  /** The widget a running service of this type adds, if any. */
  function TypeWidget(kind: Option<string>): Option<WidgetKind> {
    if kind == Some("plex") then Some(PlexWidget)
    else if kind == Some("sonarr") then Some(SonarrWidget)
    else if kind == Some("beszel-hub") then Some(BeszelHubWidget)
    else if kind == Some("radarr") then Some(RadarrWidget)
    else None
  }

  /** `service.status === "running"`. */
  predicate IsRunning(service: ContainerService) {
    service.status == Some(Running)
  }

  /**
   * `Widgets({ service })`: the health widget, then for a running service
   * the one widget its type selects.
   */
  method Widgets(service: ContainerService) returns (widgets: seq<WidgetKind>)
    ensures 1 <= |widgets| <= 2 && widgets[0] == HealthWidget
    ensures !IsRunning(service) ==> widgets == [HealthWidget]
    ensures IsRunning(service) && TypeWidget(service.kind).Some? ==> widgets == [HealthWidget, TypeWidget(service.kind).value]
    ensures TypeWidget(service.kind).None? ==> widgets == [HealthWidget]
    ensures |widgets| == 2 <==> IsRunning(service) && TypeWidget(service.kind).Some?
    ensures forall i :: 1 <= i < |widgets| ==> widgets[i] != HealthWidget
  {
    widgets := [HealthWidget];
    if service.status == Some(Running) {
      if service.kind == Some("plex") {
        widgets := widgets + [PlexWidget];
      } else if service.kind == Some("sonarr") {
        widgets := widgets + [SonarrWidget];
      } else if service.kind == Some("beszel-hub") {
        widgets := widgets + [BeszelHubWidget];
      } else if service.kind == Some("radarr") {
        widgets := widgets + [RadarrWidget];
      }
    }
  }

  /** Each of the four known types selects its own widget, and no other type selects one. */
  lemma TypeWidgetsAreDistinct(kind: Option<string>)
    ensures TypeWidget(kind) == Some(PlexWidget) <==> kind == Some("plex")
    ensures TypeWidget(kind) == Some(SonarrWidget) <==> kind == Some("sonarr")
    ensures TypeWidget(kind) == Some(BeszelHubWidget) <==> kind == Some("beszel-hub")
    ensures TypeWidget(kind) == Some(RadarrWidget) <==> kind == Some("radarr")
    ensures TypeWidget(kind) != Some(HealthWidget)
    ensures TypeWidget(Some("nzbget")) == None && TypeWidget(None) == None
  {
  }
}
