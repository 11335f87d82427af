/**
 * User-chosen RPC URLs, one per network, stored as one object under `custom-rpc-urls`.
 * A URL is stored trimmed; a blank one is ignored. A blank URL does not remove the
 * network's entry, although the function's documentation says it does.
 */
module RpcUrls {
  import opened Wrappers
  import opened JsStrings

  /** What may be stored for a network: non-empty, no white space at either end. */
  predicate IsTrimmedUrl(u: string) {
    u != [] && !IsJsWhitespace(u[0]) && !IsJsWhitespace(u[|u| - 1])
  }

  predicate AllTrimmed(m: map<string, string>) {
    forall k :: k in m ==> IsTrimmedUrl(m[k])
  }

  /**
   * `if (url && url.trim() !== '') current[network] = url.trim()`: a URL that is not all white space
   * is stored trimmed under the network; any other leaves the map as it was.
   */
  function SetUrl(m: map<string, string>, network: string, url: string): (r: map<string, string>)
    ensures forall k :: k != network ==> (k in r <==> k in m) && (k in r ==> r[k] == m[k])
    ensures AllWhitespace(url) ==> r == m
    ensures !AllWhitespace(url) ==> network in r && IsTrimmedUrl(r[network])
  {
    TrimEmptyIffBlank(url);
    TrimIsTrimmed(url);
    if url != "" && Trim(url) != "" then m[network := Trim(url)] else m
  }

  /** The stored URL is exactly the trimmed input: trimming it again changes nothing. */
  lemma StoredUrlIsTrim(m: map<string, string>, network: string, url: string)
    requires !AllWhitespace(url)
    ensures SetUrl(m, network, url)[network] == Trim(url)
    ensures Trim(SetUrl(m, network, url)[network]) == SetUrl(m, network, url)[network]
  {
    TrimEmptyIffBlank(url);
    TrimIdempotent(url);
  }

  /** A blank URL never removes the network's saved URL. */
  lemma BlankUrlKeepsEntry(m: map<string, string>, network: string, url: string)
    requires network in m && AllWhitespace(url)
    ensures network in SetUrl(m, network, url) && SetUrl(m, network, url)[network] == m[network]
  {
  }

  /** Every stored URL stays trimmed and non-empty. */
  lemma SetUrlPreservesTrimmed(m: map<string, string>, network: string, url: string)
    requires AllTrimmed(m)
    ensures AllTrimmed(SetUrl(m, network, url))
  {
  }

  /** Repeating the same call changes nothing more. */
  lemma SetUrlIdempotent(m: map<string, string>, network: string, url: string)
    ensures SetUrl(SetUrl(m, network, url), network, url) == SetUrl(m, network, url)
  {
  }

  /** A URL padded with white space on either side is stored without it. */
  lemma PaddedUrlIsTrimmed(m: map<string, string>, network: string, pad1: string, u: string, pad2: string)
    requires AllWhitespace(pad1) && AllWhitespace(pad2) && IsTrimmedUrl(u)
    ensures var r := SetUrl(m, network, pad1 + u + pad2); network in r && r[network] == u
  {
    TrimOfPadded(pad1, u, pad2);
    TrimEmptyIffBlank(pad1 + u + pad2);
  }

  /** The key-value store's `custom-rpc-urls` entry. */
  class RpcUrlStorage {
    /** `None` when nothing (or `null`) is stored. */
    var stored: Option<map<string, string>>

    constructor (saved: Option<map<string, string>>)
      ensures stored == saved
    {
      stored := saved;
    }

    /** `getCustomRpcUrls`: the stored map, or `{}`. */
    method GetCustomRpcUrls() returns (m: map<string, string>)
      ensures stored.None? ==> m == map[]
      ensures stored.Some? ==> m == stored.value
    {
      m := if stored.Some? then stored.value else map[];
    }

    /** `setCustomRpcUrl`: the map is written back whether or not it changed. */
    method SetCustomRpcUrl(network: string, url: string)
      modifies this
      ensures var current := if old(stored).Some? then old(stored).value else map[];
        stored == Some(SetUrl(current, network, url))
      ensures old(stored).Some? && AllTrimmed(old(stored).value) ==> AllTrimmed(stored.value)
    {
      var current := GetCustomRpcUrls();
      if stored.Some? && AllTrimmed(stored.value) {
        SetUrlPreservesTrimmed(current, network, url);
      }
      stored := Some(SetUrl(current, network, url));
    }
  }
}
