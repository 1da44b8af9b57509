/**
 * The request builder of solar_output.py: the endpoint address and the four
 * query parameters handed to the HTTP client.
 */
module RequestBuilder {
  import opened Wrappers
  import opened Decimal
  import opened ConfigLoader

  const ApiKeyKey := "api_key"
  const StartKey := "start"
  const EndKey := "end"
  const UnitKey := "unit"

  const ApiKeyParam := "api_key"
  const StartDateParam := "startDate"
  const EndDateParam := "endDate"
  const TimeUnitParam := "timeUnit"

  /** A GET request as the HTTP client receives it: the target address and the query parameters. */
  datatype Request = Request(address: string, params: map<string, string>)

  /**
   * Every setting the request needs is present, both day offsets are
   * integers, and both give a date in the calendar's range.
   */
  predicate Complete(cfg: Config, daysBack: int -> Option<string>) {
    && SiteIdKey in cfg && ApiKeyKey in cfg && StartKey in cfg && EndKey in cfg && UnitKey in cfg
    && ParseInt(cfg[StartKey]).Some? && ParseInt(cfg[EndKey]).Some?
    && daysBack(ParseInt(cfg[StartKey]).value).Some? && daysBack(ParseInt(cfg[EndKey]).value).Some?
  }

  /**
   * `build_request` without the network call: loads the settings, then reads
   * `api_key`, the `start` offset and its date, the `end` offset and its
   * date, and `unit`, in that order, failing at the first setting that is
   * missing, not an integer, or an offset `daysBack` cannot turn into a date.
   */
  method BuildRequest(parsed: Config, daysBack: int -> Option<string>) returns (r: Result<Request, ConfigError>)
    ensures r.Success? <==> Complete(parsed, daysBack)
    ensures SiteIdKey !in parsed ==> r == Failure(MissingKey(SiteIdKey))
    ensures SiteIdKey in parsed && ApiKeyKey !in parsed ==> r == Failure(MissingKey(ApiKeyKey))
    ensures SiteIdKey in parsed && ApiKeyKey in parsed && StartKey !in parsed
      ==> r == Failure(MissingKey(StartKey))
    ensures SiteIdKey in parsed && ApiKeyKey in parsed && StartKey in parsed
      && ParseInt(parsed[StartKey]).None?
      ==> r == Failure(NotAnInteger(StartKey))
    ensures SiteIdKey in parsed && ApiKeyKey in parsed && StartKey in parsed
      && ParseInt(parsed[StartKey]).Some? && daysBack(ParseInt(parsed[StartKey]).value).None?
      ==> r == Failure(DateOutOfRange(StartKey))
    ensures SiteIdKey in parsed && ApiKeyKey in parsed && StartKey in parsed
      && ParseInt(parsed[StartKey]).Some? && daysBack(ParseInt(parsed[StartKey]).value).Some?
      && EndKey !in parsed
      ==> r == Failure(MissingKey(EndKey))
    ensures SiteIdKey in parsed && ApiKeyKey in parsed && StartKey in parsed
      && ParseInt(parsed[StartKey]).Some? && daysBack(ParseInt(parsed[StartKey]).value).Some?
      && EndKey in parsed && ParseInt(parsed[EndKey]).None?
      ==> r == Failure(NotAnInteger(EndKey))
    ensures SiteIdKey in parsed && ApiKeyKey in parsed && StartKey in parsed
      && ParseInt(parsed[StartKey]).Some? && daysBack(ParseInt(parsed[StartKey]).value).Some?
      && EndKey in parsed && ParseInt(parsed[EndKey]).Some? && daysBack(ParseInt(parsed[EndKey]).value).None?
      ==> r == Failure(DateOutOfRange(EndKey))
    ensures SiteIdKey in parsed && ApiKeyKey in parsed && StartKey in parsed && EndKey in parsed
      && ParseInt(parsed[StartKey]).Some? && ParseInt(parsed[EndKey]).Some?
      && daysBack(ParseInt(parsed[StartKey]).value).Some? && daysBack(ParseInt(parsed[EndKey]).value).Some?
      && UnitKey !in parsed
      ==> r == Failure(MissingKey(UnitKey))
    ensures r.Success? ==> r.value.address == Address(parsed[SiteIdKey])
    ensures r.Success? ==> r.value.params.Keys == {ApiKeyParam, StartDateParam, EndDateParam, TimeUnitParam}
    ensures r.Success? ==> r.value.params[ApiKeyParam] == parsed[ApiKeyKey]
    ensures r.Success? ==> Some(r.value.params[StartDateParam]) == daysBack(ParseInt(parsed[StartKey]).value)
    ensures r.Success? ==> Some(r.value.params[EndDateParam]) == daysBack(ParseInt(parsed[EndKey]).value)
    ensures r.Success? ==> r.value.params[TimeUnitParam] == parsed[UnitKey]
  {
    var loaded := LoadConfig(parsed);
    if loaded.Failure? {
      return Failure(loaded.error);
    }
    var cfg := loaded.value;
    if ApiKeyKey !in cfg {
      return Failure(MissingKey(ApiKeyKey));
    }
    if StartKey !in cfg {
      return Failure(MissingKey(StartKey));
    }
    var start := ParseInt(cfg[StartKey]);
    if start.None? {
      return Failure(NotAnInteger(StartKey));
    }
    var startDate := daysBack(start.value);
    if startDate.None? {
      return Failure(DateOutOfRange(StartKey));
    }
    if EndKey !in cfg {
      return Failure(MissingKey(EndKey));
    }
    var end := ParseInt(cfg[EndKey]);
    if end.None? {
      return Failure(NotAnInteger(EndKey));
    }
    var endDate := daysBack(end.value);
    if endDate.None? {
      return Failure(DateOutOfRange(EndKey));
    }
    if UnitKey !in cfg {
      return Failure(MissingKey(UnitKey));
    }
    var params := map[
      ApiKeyParam := cfg[ApiKeyKey],
      StartDateParam := startDate.value,
      EndDateParam := endDate.value,
      TimeUnitParam := cfg[UnitKey]
    ];
    r := Success(Request(cfg[AddressKey], params));
  }
}
