/**
 * The metadata uploader: a module-level client and config index walked through a
 * fixed list of IPFS configs, an upload that retries at most once, and a local
 * key/value fallback (`localStorage`) keyed by `ipfs_fallback_<hash>`.
 *
 * `create`, `add` and `cat` of the IPFS client library are not modelled: whether
 * `create` throws for a config is the set `createFails`, and what `add` and `cat`
 * answer are parameters. The random part of a fallback hash is a parameter too.
 */
module Ipfs {
  import opened Wrappers
  import opened Text

  datatype IpfsConfig = IpfsConfig(host: string, port: int, protocol: string, apiPath: string)

  const IpfsConfigs: seq<IpfsConfig> := [
    IpfsConfig("ipfs.io", 443, "https", "/api/v0"),
    IpfsConfig("4everland.io", 443, "https", "/ipfs/api/v0")
  ]

  /** A client made by `create(IPFS_CONFIGS[config])`. */
  datatype Client = Client(config: nat)

  /** What `ipfs.add(JSON.stringify(data))` answers: the stored path, or a thrown error. */
  datatype AddAnswer = Added(path: string) | AddFailed

  /** What reading `ipfs.cat(cid)` to the end answers: the content, or a thrown error. */
  datatype CatAnswer = Fetched(content: string) | CatFailed

  const UriScheme: string := "ipfs://"
  const FallbackPrefix: string := "ipfs_fallback_"
  const MockHashPrefix: string := "bafkreif"
  const DefaultUri: string := "ipfs://bafkreifallbackhashfornftmetadata"

  /** The storage key `ipfs_fallback_${cid}`. */
  function FallbackKey(cid: string): string { FallbackPrefix + cid }

  /** The mock hash `'bafkreif' + <random base-36 digits>`. */
  function MockHash(randomPart: string): string { MockHashPrefix + randomPart }

  /** Where `createIPFSClient` stops when started at config `i`: the first config from `i` on that `create` accepts, or the config count. */
  function WalkFrom(i: nat, createFails: set<nat>): (r: nat)
    requires i <= |IpfsConfigs|
    ensures i <= r <= |IpfsConfigs|
    ensures forall j :: i <= j < r ==> j in createFails
    ensures r < |IpfsConfigs| ==> r !in createFails
    decreases |IpfsConfigs| - i
  {
    if i < |IpfsConfigs| && i in createFails then WalkFrom(i + 1, createFails) else i
  }

  /** The fallback read of `getFromIPFS`: the stored text under `ipfs_fallback_<cid>`, unless absent or empty. */
  function FallbackLookup(storage: map<string, string>, cid: string): (r: Result<string>)
    ensures r.Ok? <==> FallbackKey(cid) in storage && storage[FallbackKey(cid)] != ""
    ensures r.Ok? ==> r.value == storage[FallbackKey(cid)]
    ensures r.Err? ==> r.message == "Could not retrieve data for CID: " + cid
  {
    var key := FallbackKey(cid);
    if key in storage && storage[key] != "" then Ok(storage[key])
    else Err("Could not retrieve data for CID: " + cid)
  }

  /** The module-level state of the uploader and the browser's `localStorage`. */
  class IpfsUploader {
    var ipfs: Option<Client>
    var currentConfigIndex: nat
    var localStorage: map<string, string>
    /** The configs for which `create` throws. */
    const createFails: set<nat>

    ghost predicate Valid()
      reads this
    {
      && currentConfigIndex <= |IpfsConfigs|
      && (ipfs.Some? ==> ipfs.value.config <= currentConfigIndex
                         && ipfs.value.config < |IpfsConfigs|
                         && ipfs.value.config !in createFails)
    }

    /** Loading the module: `ipfs = null`, `currentConfigIndex = 0`, then `createIPFSClient()`. */
    constructor (createFails: set<nat>, storage: map<string, string>)
      ensures Valid()
      ensures this.createFails == createFails && localStorage == storage
      ensures currentConfigIndex == WalkFrom(0, createFails)
      ensures ipfs == if currentConfigIndex < |IpfsConfigs| then Some(Client(currentConfigIndex)) else None
    {
      this.createFails := createFails;
      ipfs := None;
      currentConfigIndex := 0;
      localStorage := storage;
      new;
      var _ := CreateIPFSClient();
    }

    /**
     * `createIPFSClient`: walks the index past the configs `create` rejects; returns
     * null only at the end of the list, and then leaves `ipfs` as it was.
     */
    method CreateIPFSClient() returns (client: Option<Client>)
      requires Valid()
      modifies this
      ensures Valid()
      ensures currentConfigIndex == WalkFrom(old(currentConfigIndex), createFails)
      ensures client.None? <==> currentConfigIndex == |IpfsConfigs|
      ensures client.Some? ==> client == Some(Client(currentConfigIndex)) && ipfs == client
      ensures client.None? ==> ipfs == old(ipfs)
      ensures localStorage == old(localStorage)
      decreases |IpfsConfigs| - currentConfigIndex
    {
      if currentConfigIndex < |IpfsConfigs| {
        if currentConfigIndex !in createFails {
          ipfs := Some(Client(currentConfigIndex));
          return ipfs;
        }
        currentConfigIndex := currentConfigIndex + 1;
        client := CreateIPFSClient();
        return;
      }
      return None;
    }

    /**
     * `uploadToIPFS`: one `add` on the current client; on failure, step to the next
     * config, retry once on whatever client `ipfs` then holds, and otherwise fall back
     * to local storage. It never throws and always answers an `ipfs://` URI.
     */
    method UploadToIPFS(data: string, first: AddAnswer, retry: AddAnswer, randomPart: string, writeFails: bool)
      returns (uri: string, addCalls: nat)
      requires Valid()
      modifies this
      ensures Valid()
      ensures UriScheme <= uri
      ensures addCalls <= 2
      ensures old(currentConfigIndex) <= currentConfigIndex
      ensures old(ipfs).Some? && first.Added? ==>
                uri == UriScheme + first.path && addCalls == 1
                && ipfs == old(ipfs) && currentConfigIndex == old(currentConfigIndex)
                && localStorage == old(localStorage)
      ensures !(old(ipfs).Some? && first.Added?) ==>
                var stepped := old(currentConfigIndex) < |IpfsConfigs|;
                var retried := stepped && ipfs.Some?;
                && currentConfigIndex == (if stepped then WalkFrom(old(currentConfigIndex) + 1, createFails)
                                          else old(currentConfigIndex))
                && ipfs == (if stepped && currentConfigIndex < |IpfsConfigs| then Some(Client(currentConfigIndex))
                            else old(ipfs))
                && addCalls == (if old(ipfs).Some? then 1 else 0) + (if retried then 1 else 0)
                && (if retried && retry.Added? then uri == UriScheme + retry.path && localStorage == old(localStorage)
                    else FallbackEffect(old(localStorage), data, randomPart, writeFails, uri, localStorage))
    {
      addCalls := 0;
      if ipfs.Some? {
        addCalls := addCalls + 1;
        if first.Added? {
          return UriScheme + first.path, addCalls;
        }
      }
      // the first attempt threw, or there was no client
      if currentConfigIndex < |IpfsConfigs| {
        currentConfigIndex := currentConfigIndex + 1;
        var _ := CreateIPFSClient();
        if ipfs.Some? {
          addCalls := addCalls + 1;
          if retry.Added? {
            return UriScheme + retry.path, addCalls;
          }
        }
      }
      uri := UploadToFallbackStorage(data, randomPart, writeFails);
    }

    /**
     * `uploadToFallbackStorage`: stores the data under `ipfs_fallback_<hash>` and
     * answers `ipfs://<hash>`; when the write throws, nothing is stored and the
     * constant default URI is answered.
     */
    method UploadToFallbackStorage(data: string, randomPart: string, writeFails: bool) returns (uri: string)
      modifies this`localStorage
      ensures FallbackEffect(old(localStorage), data, randomPart, writeFails, uri, localStorage)
      ensures UriScheme + MockHashPrefix <= uri
    {
      var mockHash := MockHash(randomPart);
      var storageKey := FallbackKey(mockHash);
      if writeFails {
        return DefaultUri;
      }
      localStorage := localStorage[storageKey := data];
      uri := UriScheme + mockHash;
    }

    /**
     * `getFromIPFS`: the content `cat` returns when there is a client and it answers;
     * otherwise the fallback read of `ipfs_fallback_<cid>`.
     */
    method GetFromIPFS(cid: string, cat: CatAnswer) returns (r: Result<string>)
      ensures ipfs.Some? && cat.Fetched? ==> r == Ok(cat.content)
      ensures !(ipfs.Some? && cat.Fetched?) ==> r == FallbackLookup(localStorage, cid)
    {
      if ipfs.Some? && cat.Fetched? {
        return Ok(cat.content);
      }
      var storageKey := FallbackKey(cid);
      if storageKey in localStorage && localStorage[storageKey] != "" {
        return Ok(localStorage[storageKey]);
      }
      return Err("Could not retrieve data for CID: " + cid);
    }
  }

  /**
   * The effect of the fallback: with a working storage, exactly the key
   * `ipfs_fallback_<hash>` is written and `ipfs://<hash>` answered; with a failing
   * one, nothing is written and the default URI answered.
   */
  predicate FallbackEffect(before: map<string, string>, data: string, randomPart: string, writeFails: bool,
                           uri: string, after: map<string, string>)
  {
    if writeFails then uri == DefaultUri && after == before
    else uri == UriScheme + MockHash(randomPart) && after == before[FallbackKey(MockHash(randomPart)) := data]
  }

  /**
   * What the fallback stores, `getFromIPFS(hash)` reads back; the full `ipfs://hash`
   * URI it answered does not reach that key.
   */
  lemma FallbackRoundTrip(before: map<string, string>, data: string, randomPart: string, uri: string, after: map<string, string>)
    requires data != ""
    requires FallbackEffect(before, data, randomPart, false, uri, after)
    ensures uri == UriScheme + MockHash(randomPart)
    ensures FallbackLookup(after, MockHash(randomPart)) == Ok(data)
    ensures FallbackLookup(after, uri) == FallbackLookup(before, uri)
  {
    assert |FallbackKey(uri)| != |FallbackKey(MockHash(randomPart))|;
  }

  /** Every URI the fallback answers, the default included, starts with `ipfs://bafkreif`. */
  lemma FallbackUriShape(before: map<string, string>, data: string, randomPart: string, writeFails: bool,
                         uri: string, after: map<string, string>)
    requires FallbackEffect(before, data, randomPart, writeFails, uri, after)
    ensures UriScheme + MockHashPrefix <= uri
  {
  }
}
