/**
 * Layer and datasource validity: the summary that `check_layer_validity`
 * builds for every layer of a loaded project, and the decision whether the
 * project has invalid layers.
 */
module Layers {
  import opened Common

  /** A QGIS error object: its message list, its summary and its full message. */
  datatype QgsError = QgsError(messages: seq<string>, summary: string, message: string)

  /**
   * The data provider of a layer. `reachable` stands for the network probe
   * `is_localhost(host, port) or has_ping(host)`.
   */
  datatype Provider = Provider(
    uri: string,
    error: QgsError,
    service: string,
    host: string,
    reachable: bool)

  /** A map layer of the project, with an optional data provider. */
  datatype Layer = Layer(
    name: string,
    isValid: bool,
    error: QgsError,
    filename: Option<string>,
    provider: Option<Provider>)

  /** One entry of the layers summary (a dictionary in the source). */
  datatype LayerRow = LayerRow(
    id: string,
    name: string,
    isValid: bool,
    datasource: Option<string>,
    errorSummary: string,
    errorMessage: string,
    filename: Option<string>,
    providerErrorSummary: Option<string>,
    providerErrorMessage: Option<string>)

  const NoProviderMessage: string := "No data provider available"

  function ServiceMessage(service: string): string
  {
    "Unable to connect to service \"" + service + "\""
  }

  function HostMessage(host: string): string
  {
    "Unable to connect to host \"" + host + "\""
  }

  /** The summary of an error, or "" when it carries no message. */
  function SummaryOrEmpty(e: QgsError): (s: string)
    ensures e.messages == [] ==> s == ""
    ensures e.messages != [] ==> s == e.summary
  {
    if |e.messages| > 0 then e.summary else ""
  }

  /**
   * The summary entry as first built, before the provider fields are
   * filled in. Corrected definition: the source dereferences the provider
   * for the datasource unconditionally (see InitialRowAsWritten); here a
   * layer without a provider gets no datasource.
   */
  function InitialRow(layer: Layer): (row: LayerRow)
    ensures row.name == layer.name && row.id == layer.name && row.isValid == layer.isValid
    ensures row.providerErrorSummary == None && row.providerErrorMessage == None
    ensures layer.provider.Some? ==> row.datasource == Some(layer.provider.value.uri)
    ensures layer.provider.None? ==> row.datasource == None
    // the layer's error: its summary only when it carries messages, its message, and the file name
    ensures layer.error.messages != [] ==> row.errorSummary == layer.error.summary
    ensures layer.error.messages == [] ==> row.errorSummary == ""
    ensures row.errorMessage == layer.error.message && row.filename == layer.filename
  {
    LayerRow(
      layer.name, layer.name, layer.isValid,
      if layer.provider.Some? then Some(layer.provider.value.uri) else None,
      SummaryOrEmpty(layer.error), layer.error.message, layer.filename,
      None, None)
  }

  /**
   * The entry as the source builds it: reading the datasource through the
   * provider fails (None: an AttributeError, outside the domain error
   * family) when the layer has no provider.
   */
  function InitialRowAsWritten(layer: Layer): (row: Option<LayerRow>)
    ensures row.Some? <==> layer.provider.Some?
    ensures row.Some? ==> row.value == InitialRow(layer)
  {
    match layer.provider
    case None => None
    case Some(p) =>
      Some(LayerRow(
        layer.name, layer.name, layer.isValid, Some(p.uri),
        SummaryOrEmpty(layer.error), layer.error.message, layer.filename,
        None, None))
  }

  /**
   * The provider error summary of a layer: absent for a valid layer; the
   * no-provider message for an invalid layer without provider; otherwise the
   * provider's own summary, and only when that is empty a connection message,
   * the host one taking precedence over the service one.
   */
  function ProviderErrorSummary(layer: Layer): (s: Option<string>)
    ensures layer.isValid ==> s == None
    ensures !layer.isValid ==> s.Some?
    ensures !layer.isValid && layer.provider.None? ==> s == Some(NoProviderMessage)
    ensures !layer.isValid && layer.provider.Some? ==>
      var p := layer.provider.value;
      && (SummaryOrEmpty(p.error) != "" ==> s == Some(p.error.summary))
      && (SummaryOrEmpty(p.error) == "" && p.host != "" && p.reachable ==> s == Some(HostMessage(p.host)))
      && (SummaryOrEmpty(p.error) == "" && !(p.host != "" && p.reachable) && p.service != "" ==>
            s == Some(ServiceMessage(p.service)))
      && (SummaryOrEmpty(p.error) == "" && !(p.host != "" && p.reachable) && p.service == "" ==> s == Some(""))
  {
    if layer.isValid then None
    else match layer.provider
      case None => Some(NoProviderMessage)
      case Some(p) =>
        var own := SummaryOrEmpty(p.error);
        if own != "" then Some(own)
        else if p.host != "" && p.reachable then Some(HostMessage(p.host))
        else if p.service != "" then Some(ServiceMessage(p.service))
        else Some("")
  }

  /** The provider error message: set only for an invalid layer that has a provider. */
  function ProviderErrorMessage(layer: Layer): (m: Option<string>)
    ensures m.Some? <==> !layer.isValid && layer.provider.Some?
    ensures m.Some? ==> m.value == layer.provider.value.error.message
  {
    if !layer.isValid && layer.provider.Some? then Some(layer.provider.value.error.message) else None
  }

  /** The final summary entry of one layer (corrected definition, built on InitialRow). */
  function LayerRowOf(layer: Layer): LayerRow
  {
    InitialRow(layer).(providerErrorSummary := ProviderErrorSummary(layer),
                       providerErrorMessage := ProviderErrorMessage(layer))
  }

  /** The summary of all layers, in iteration order. */
  function Summary(layers: seq<Layer>): seq<LayerRow>
  {
    seq(|layers|, i requires 0 <= i < |layers| => LayerRowOf(layers[i]))
  }

  /**
   * The outcome of the check: the summary is returned when every layer is
   * valid, and carried by the InvalidLayers error otherwise. Corrected
   * definition: its entries are built with InitialRow, so a layer without a
   * data provider gets an entry instead of failing (see InitialRowAsWritten).
   */
  function LayerCheck(layers: seq<Layer>): Result<seq<LayerRow>, seq<LayerRow>>
  {
    if exists i :: 0 <= i < |layers| && !layers[i].isValid then Err(Summary(layers))
    else Ok(Summary(layers))
  }

  /**
   * Builds one summary entry per layer, never stopping at an invalid one,
   * fills in the provider error fields of invalid layers, and reports
   * failure (Err, the InvalidLayers exception) iff some layer is invalid.
   */
  method CheckLayerValidity(layers: seq<Layer>) returns (r: Result<seq<LayerRow>, seq<LayerRow>>)
    ensures r == LayerCheck(layers)
    ensures var rows := if r.Ok? then r.value else r.error;
      |rows| == |layers| && forall i :: 0 <= i < |layers| ==> rows[i] == LayerRowOf(layers[i])
    ensures r.Err? <==> exists i :: 0 <= i < |layers| && !layers[i].isValid
  {
    var hasInvalidLayers := false;
    var layersSummary: seq<LayerRow> := [];
    for i := 0 to |layers|
      invariant |layersSummary| == i
      invariant forall j :: 0 <= j < i ==> layersSummary[j] == LayerRowOf(layers[j])
      invariant hasInvalidLayers <==> exists j :: 0 <= j < i && !layers[j].isValid
    {
      var layer := layers[i];
      var layerData := InitialRow(layer);
      layersSummary := layersSummary + [layerData];
      if layerData.isValid {
        continue;
      }
      hasInvalidLayers := true;
      match layer.provider {
        case Some(p) =>
          var own := SummaryOrEmpty(p.error);
          layerData := layerData.(providerErrorSummary := Some(own), providerErrorMessage := Some(p.error.message));
          if own == "" {
            if p.service != "" {
              layerData := layerData.(providerErrorSummary := Some(ServiceMessage(p.service)));
            }
            if p.host != "" && p.reachable {
              layerData := layerData.(providerErrorSummary := Some(HostMessage(p.host)));
            }
          }
        case None =>
          layerData := layerData.(providerErrorSummary := Some(NoProviderMessage));
      }
      // the entry was appended before it was completed; the list sees the update
      layersSummary := layersSummary[i := layerData];
    }
    assert layersSummary == Summary(layers);
    if hasInvalidLayers {
      r := Err(layersSummary);
    } else {
      r := Ok(layersSummary);
    }
  }

  /**
   * As written, an invalid layer without a data provider never reaches the
   * no-provider branch: building its entry already fails.
   */
  lemma NoProviderBranchUnreachableAsWritten(layer: Layer)
    requires !layer.isValid && layer.provider.None?
    ensures InitialRowAsWritten(layer).None?
    ensures ProviderErrorSummary(layer) == Some(NoProviderMessage)
  {
  }
}
