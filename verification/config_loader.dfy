/**
 * The configuration loader of solar_output.py, after the settings file has
 * been read and parsed: it derives the endpoint address from the site
 * identifier and adds it to the settings.
 */
module ConfigLoader {
  import opened Wrappers

  /** Parsed settings: each setting's name mapped to its text. */
  type Config = map<string, string>

  /**
   * Why a configuration cannot be used: the KeyError, the ValueError, or the
   * OverflowError that an offset outside the calendar makes Python raise.
   */
  datatype ConfigError = MissingKey(key: string) | NotAnInteger(key: string) | DateOutOfRange(key: string)

  const SiteIdKey := "site_id"
  const AddressKey := "address"
  const AddressPrefix := "https://monitoringapi.solaredge.com/site/"
  const AddressSuffix := "/energy"

  /** The energy endpoint of a site. */
  function Address(siteId: string): string {
    AddressPrefix + siteId + AddressSuffix
  }

  /** The site an endpoint address names, if the address has the endpoint's shape. */
  function SiteIdOf(address: string): Option<string> {
    if |AddressPrefix| + |AddressSuffix| <= |address|
       && address[..|AddressPrefix|] == AddressPrefix
       && address[|address| - |AddressSuffix|..] == AddressSuffix
    then Some(address[|AddressPrefix|..|address| - |AddressSuffix|])
    else None
  }

  lemma SplitThree(a: string, b: string, c: string)
    ensures |a + b + c| == |a| + |b| + |c|
    ensures (a + b + c)[..|a|] == a
    ensures (a + b + c)[|a + b + c| - |c|..] == c
    ensures (a + b + c)[|a|..|a + b + c| - |c|] == b
  {
  }

  /** The site identifier can be read back from its address, so distinct sites get distinct addresses. */
  lemma AddressRoundTrip(siteId: string)
    ensures SiteIdOf(Address(siteId)) == Some(siteId)
  {
    SplitThree(AddressPrefix, siteId, AddressSuffix);
  }

  /**
   * `load_config` once the file is parsed: adds the endpoint address of the
   * configured site, overwriting any earlier `address`, and keeps every other
   * setting; a configuration without a site identifier raises KeyError.
   */
  method LoadConfig(parsed: Config) returns (r: Result<Config, ConfigError>)
    ensures r.Failure? <==> SiteIdKey !in parsed
    ensures r.Failure? ==> r.error == MissingKey(SiteIdKey)
    ensures r.Success? ==> r.value.Keys == parsed.Keys + {AddressKey}
    ensures r.Success? ==> r.value[AddressKey] == Address(parsed[SiteIdKey])
    ensures r.Success? ==> forall k :: k in parsed && k != AddressKey ==> r.value[k] == parsed[k]
  {
    var cfg := parsed;
    if SiteIdKey !in cfg {
      return Failure(MissingKey(SiteIdKey));
    }
    cfg := cfg[AddressKey := Address(cfg[SiteIdKey])];
    r := Success(cfg);
  }
}
