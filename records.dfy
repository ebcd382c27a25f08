/**
 * BrowserRecord: the validated value built from a resolved service, and its
 * classification into a device kind.
 */
module Records {
  import opened Wrappers
  import Utf8

  /**
   * A service instance as the discovery primitive reports it (a NetService).
   * Two handles are equal when their instance name, type and domain are.
   */
  datatype Handle = Handle(name: string, serviceType: string, domain: string)

  /** A TXT record once parsed into keys and raw values. */
  type TxtDictionary = map<string, seq<Utf8.byte>>

  /** The branding stripped from the front of display names. */
  const RemovedPrefix: string := "The Cave "
  /** The TXT key that carries the device's chip identifier. */
  const ChipIdKey: string := "chipid"
  /** Endpoints use the plain scheme: local hosts carry no certificates. */
  const Scheme: string := "http://"
  /** Host names of lamps start with this. */
  const LampHostPrefix: string := "wifilamp"

  datatype BrowserRecord = BrowserRecord(
    name: string,
    hostName: string,
    url: string,
    chipId: string,
    service: Handle)

  /** The display name: the instance name with one leading RemovedPrefix taken off. */
  function DisplayName(name: string): (r: string)
    ensures if RemovedPrefix <= name then RemovedPrefix + r == name else r == name
  {
    if RemovedPrefix <= name then name[|RemovedPrefix|..] else name
  }

  /** A record as From builds it: its name and url follow from its service and host. */
  predicate WellFormed(r: BrowserRecord) {
    r.name == DisplayName(r.service.name) && r.url == Scheme + r.hostName
  }

  /**
   * `BrowserRecord.from(service:)`: the record for a resolved service, or
   * None when it has no TXT data, no host name, no "chipid" entry, or an
   * entry that is not well-formed UTF-8.
   */
  function From(service: Handle, txt: Option<TxtDictionary>, hostName: Option<string>): (r: Option<BrowserRecord>)
    ensures r.Some? <==>
      && txt.Some? && hostName.Some?
      && ChipIdKey in txt.value
      && Utf8.Decode(txt.value[ChipIdKey]).Some?
    ensures r.Some? ==>
      && WellFormed(r.value)
      && r.value.service == service
      && r.value.hostName == hostName.value
      && Utf8.Encode(r.value.chipId) == txt.value[ChipIdKey]
  {
    if txt.None? || hostName.None? || ChipIdKey !in txt.value then None
    else match Utf8.Decode(txt.value[ChipIdKey])
      case None => None
      case Some(chipId) =>
        Some(BrowserRecord(DisplayName(service.name), hostName.value, Scheme + hostName.value, chipId, service))
  }

  /** A resolved service whose "chipid" entry encodes a string yields the record carrying it. */
  lemma FromSucceeds(service: Handle, txt: TxtDictionary, hostName: string, chipId: string)
    requires ChipIdKey in txt && txt[ChipIdKey] == Utf8.Encode(chipId)
    ensures From(service, Some(txt), Some(hostName)) ==
      Some(BrowserRecord(DisplayName(service.name), hostName, Scheme + hostName, chipId, service))
  {
    Utf8.DecodeEncode(chipId);
  }

  datatype Device =
    | WiFiLamp(chipId: string, name: string, localNetworkUrl: string)
    | UnknownDevice(chipId: string, name: string, localNetworkUrl: string)

  /** `toDevice()`: a lamp exactly when the host name starts with "wifilamp"; the fields are carried over. */
  function ToDevice(r: BrowserRecord): (d: Device)
    ensures d.WiFiLamp? <==> LampHostPrefix <= r.hostName
    ensures d.chipId == r.chipId && d.name == r.name && d.localNetworkUrl == r.url
  {
    if LampHostPrefix <= r.hostName then WiFiLamp(r.chipId, r.name, r.url)
    else UnknownDevice(r.chipId, r.name, r.url)
  }

  /**
   * A lamp announced as "The Cave WiFiLamp1" on host "wifilamp-ab12.local"
   * becomes the record named "WiFiLamp1" at http://wifilamp-ab12.local,
   * carrying the chip id its "chipid" entry encodes, and is classified as a
   * lamp.
   */
  lemma FromExample(service: Handle, txt: TxtDictionary, hostName: string, chipId: string)
    requires service == Handle("The Cave WiFiLamp1", "_wifilamp._tcp.", "local.")
    requires ChipIdKey in txt && txt[ChipIdKey] == Utf8.Encode(chipId)
    requires hostName == "wifilamp-ab12.local"
    ensures From(service, Some(txt), Some(hostName)) ==
      Some(BrowserRecord("WiFiLamp1", hostName, "http://wifilamp-ab12.local", chipId, service))
    ensures ToDevice(From(service, Some(txt), Some(hostName)).value) ==
      WiFiLamp(chipId, "WiFiLamp1", "http://wifilamp-ab12.local")
  {
    FromSucceeds(service, txt, hostName, chipId);
    ExampleFields(service.name, hostName);
  }

  /** The display name and url of the example. */
  lemma ExampleFields(name: string, hostName: string)
    requires name == "The Cave WiFiLamp1" && hostName == "wifilamp-ab12.local"
    ensures DisplayName(name) == "WiFiLamp1" && Scheme + hostName == "http://wifilamp-ab12.local"
  {
  }
}
