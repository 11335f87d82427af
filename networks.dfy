/**
 * The predefined EVM networks of the wallet core: the `NETWORKS` table, the
 * `NetworkKey` type (its property names) and the shape of a `NetworkInfo`.
 */
module Networks {
  import opened JsValues

  /** One `NETWORKS` entry: every `NetworkInfo` field present, including the optional block explorer. */
  function Entry(key: string, displayName: string, chainId: int, symbol: string, rpcUrl: string, explorer: string): Obj {
    map[Key := Str(key), Label := Str(displayName), ChainId := Num(chainId), NativeSymbol := Str(symbol),
        RpcUrl := Str(rpcUrl), BlockExplorer := Str(explorer)]
  }

  const SYSCOIN: Obj :=
    Entry("syscoin", "Syscoin NEVM", 57, "SYS", "https://rpc.syscoin.org", "https://explorer.syscoin.org")
  const SYSCOIN_TESTNET: Obj :=
    Entry("syscoinTestnet", "Syscoin NEVM testnet", 5700, "tSYS", "https://rpc.tanenbaum.io", "https://explorer.tanenbaum.io")
  const ETHEREUM: Obj :=
    Entry("ethereum", "Ethereum Mainnet", 1, "ETH", "https://eth.llamarpc.com", "https://etherscan.io")
  const ETHEREUM_SEPOLIA: Obj :=
    Entry("ethereumSepolia", "Ethereum Sepolia", 11155111, "ETH", "https://eth-sepolia.public.blastapi.io", "https://sepolia.etherscan.io")
  const POLYGON: Obj :=
    Entry("polygon", "Polygon", 137, "POL", "https://polygon-rpc.com", "https://polygonscan.com")
  const ROLLUX: Obj :=
    Entry("rollux", "Rollux", 570, "SYS", "https://rpc.rollux.com", "https://explorer.rollux.com")

  /** `NETWORKS`, keyed by property name. */
  const NETWORKS: map<string, Obj> := map[
    "syscoin" := SYSCOIN,
    "syscoinTestnet" := SYSCOIN_TESTNET,
    "ethereum" := ETHEREUM,
    "ethereumSepolia" := ETHEREUM_SEPOLIA,
    "polygon" := POLYGON,
    "rollux" := ROLLUX
  ]

  /** `Object.values(NETWORKS)`, in declaration order; also what the custom-network validation calls `NETWORK_LIST`. */
  const NETWORK_LIST: seq<Obj> := [SYSCOIN, SYSCOIN_TESTNET, ETHEREUM, ETHEREUM_SEPOLIA, POLYGON, ROLLUX]

  /** `keyof typeof NETWORKS` */
  type NetworkKey = k: string | k in NETWORKS witness "syscoin"

  /** The network selected when nothing else is. */
  const DEFAULT_KEY: NetworkKey := "syscoin"

  /** The `NetworkInfo` interface: four string fields, a numeric chain ID, an optional string block explorer. */
  predicate IsNetworkInfo(o: Obj) {
    && Get(o, Key).Str? && Get(o, Label).Str? && Get(o, ChainId).Num?
    && Get(o, NativeSymbol).Str? && Get(o, RpcUrl).Str?
    && (Get(o, BlockExplorer).Str? || Get(o, BlockExplorer).Undefined?)
  }

  /** Every property of `NetworkInfo`, the optional one included. */
  const ALL_FIELDS: set<Field> := {Key, Label, ChainId, NativeSymbol, RpcUrl, BlockExplorer}

  /** What every `NETWORKS` entry is: a complete `NetworkInfo` with a non-empty RPC URL, named by its own `key`. */
  predicate IsTableEntry(k: string, n: Obj) {
    && Get(n, Key) == Str(k) && IsNetworkInfo(n) && n.Keys == ALL_FIELDS
    && Get(n, RpcUrl).Str? && Get(n, RpcUrl).s != ""
  }

  lemma EntryIsInfo(key: string, displayName: string, chainId: int, symbol: string, rpcUrl: string, explorer: string)
    requires rpcUrl != ""
    ensures IsTableEntry(key, Entry(key, displayName, chainId, symbol, rpcUrl, explorer))
  {
    var e := Entry(key, displayName, chainId, symbol, rpcUrl, explorer);
    assert e.Keys == ALL_FIELDS by {
      forall f ensures f in e <==> f in ALL_FIELDS {
        match f
        case Key => case Label => case ChainId => case NativeSymbol => case RpcUrl => case BlockExplorer =>
      }
    }
  }

  /** The six property lookups of the table. */
  lemma TableLookups()
    ensures NETWORKS["syscoin"] == SYSCOIN && NETWORKS["syscoinTestnet"] == SYSCOIN_TESTNET
    ensures NETWORKS["ethereum"] == ETHEREUM && NETWORKS["ethereumSepolia"] == ETHEREUM_SEPOLIA
    ensures NETWORKS["polygon"] == POLYGON && NETWORKS["rollux"] == ROLLUX
  {
  }

  /** A property of `NETWORKS` is one of its six names. */
  lemma KeyCases(k: string)
    requires k in NETWORKS
    ensures || k == "syscoin" || k == "syscoinTestnet" || k == "ethereum"
            || k == "ethereumSepolia" || k == "polygon" || k == "rollux"
  {
  }

  /** Each of the six entries is stored under its own `key`. */
  lemma TableEntries()
    ensures forall k :: k in NETWORKS ==> IsTableEntry(k, NETWORKS[k])
  {
    EntryIsInfo("syscoin", "Syscoin NEVM", 57, "SYS", "https://rpc.syscoin.org", "https://explorer.syscoin.org");
    EntryIsInfo("syscoinTestnet", "Syscoin NEVM testnet", 5700, "tSYS", "https://rpc.tanenbaum.io", "https://explorer.tanenbaum.io");
    EntryIsInfo("ethereum", "Ethereum Mainnet", 1, "ETH", "https://eth.llamarpc.com", "https://etherscan.io");
    EntryIsInfo("ethereumSepolia", "Ethereum Sepolia", 11155111, "ETH", "https://eth-sepolia.public.blastapi.io", "https://sepolia.etherscan.io");
    EntryIsInfo("polygon", "Polygon", 137, "POL", "https://polygon-rpc.com", "https://polygonscan.com");
    EntryIsInfo("rollux", "Rollux", 570, "SYS", "https://rpc.rollux.com", "https://explorer.rollux.com");
    TableLookups();
    forall k | k in NETWORKS ensures IsTableEntry(k, NETWORKS[k]) {
      KeyCases(k);
    }
  }

  /** `NETWORKS[k]`: a complete `NetworkInfo` whose `key` is the name it is stored under. */
  function Predefined(k: NetworkKey): (n: Obj)
    ensures Get(n, Key) == Str(k)
    ensures IsNetworkInfo(n) && n.Keys == ALL_FIELDS
    ensures Get(n, RpcUrl).Str? && Get(n, RpcUrl).s != ""
  {
    TableEntries();
    NETWORKS[k]
  }

  /** `NetworkKey` is exactly the six property names, and `"syscoin"` is one of them. */
  lemma NetworkKeys()
    ensures NETWORKS.Keys == {"syscoin", "syscoinTestnet", "ethereum", "ethereumSepolia", "polygon", "rollux"}
    ensures DEFAULT_KEY in NETWORKS
  {
  }

  /** `NETWORK_LIST.map(n => n.chainId)` */
  function PredefinedChainIds(): (ids: seq<Value>)
    ensures |ids| == |NETWORK_LIST|
    ensures forall i :: 0 <= i < |ids| ==> ids[i] == Get(NETWORK_LIST[i], ChainId)
  {
    seq(|NETWORK_LIST|, i requires 0 <= i < |NETWORK_LIST| => Get(NETWORK_LIST[i], ChainId))
  }

  /** The chain ID of each entry. */
  lemma EntryChainIds()
    ensures Get(SYSCOIN, ChainId) == Num(57) && Get(SYSCOIN_TESTNET, ChainId) == Num(5700)
    ensures Get(ETHEREUM, ChainId) == Num(1) && Get(ETHEREUM_SEPOLIA, ChainId) == Num(11155111)
    ensures Get(POLYGON, ChainId) == Num(137) && Get(ROLLUX, ChainId) == Num(570)
  {
  }

  /** The predefined chain IDs, in list order, are 57, 5700, 1, 11155111, 137 and 570. */
  lemma PredefinedChainIdList()
    ensures PredefinedChainIds() == [Num(57), Num(5700), Num(1), Num(11155111), Num(137), Num(570)]
  {
    EntryChainIds();
    var ids := PredefinedChainIds();
    assert ids[0] == Get(SYSCOIN, ChainId) && ids[1] == Get(SYSCOIN_TESTNET, ChainId);
    assert ids[2] == Get(ETHEREUM, ChainId) && ids[3] == Get(ETHEREUM_SEPOLIA, ChainId);
    assert ids[4] == Get(POLYGON, ChainId) && ids[5] == Get(ROLLUX, ChainId);
  }

  /** No chain ID appears twice in the predefined list. */
  lemma PredefinedChainIdsDistinct()
    ensures NoDuplicates(PredefinedChainIds())
  {
    PredefinedChainIdList();
  }

  /** Two different predefined networks never share a chain ID. */
  lemma ChainIdsDistinctByKey()
    ensures forall a, b :: a in NETWORKS && b in NETWORKS && a != b ==>
      Get(NETWORKS[a], ChainId) != Get(NETWORKS[b], ChainId)
  {
    EntryChainIds();
    TableLookups();
    forall a, b | a in NETWORKS && b in NETWORKS && a != b
      ensures Get(NETWORKS[a], ChainId) != Get(NETWORKS[b], ChainId)
    {
      KeyCases(a);
      KeyCases(b);
    }
  }

  /** The `key` of each entry. */
  lemma EntryKeys()
    ensures Get(SYSCOIN, Key) == Str("syscoin") && Get(SYSCOIN_TESTNET, Key) == Str("syscoinTestnet")
    ensures Get(ETHEREUM, Key) == Str("ethereum") && Get(ETHEREUM_SEPOLIA, Key) == Str("ethereumSepolia")
    ensures Get(POLYGON, Key) == Str("polygon") && Get(ROLLUX, Key) == Str("rollux")
  {
  }

  /** No network appears twice in `NETWORK_LIST`: their chain IDs differ. */
  lemma NetworkListDistinct()
    ensures NoDuplicates(NETWORK_LIST)
  {
    PredefinedChainIdsDistinct();
    forall i, j | 0 <= i < j < |NETWORK_LIST| ensures NETWORK_LIST[i] != NETWORK_LIST[j] {
      assert PredefinedChainIds()[i] != PredefinedChainIds()[j];
    }
  }

  /** Each `NETWORK_LIST` entry is the `NETWORKS` value stored under its `key`. */
  lemma NetworkListEntriesStored(i: nat)
    requires i < |NETWORK_LIST|
    ensures var k := ToPropertyKey(Get(NETWORK_LIST[i], Key)); k in NETWORKS && NETWORKS[k] == NETWORK_LIST[i]
  {
    EntryKeys();
    TableLookups();
    if i == 0 { assert NETWORK_LIST[i] == SYSCOIN; }
    else if i == 1 { assert NETWORK_LIST[i] == SYSCOIN_TESTNET; }
    else if i == 2 { assert NETWORK_LIST[i] == ETHEREUM; }
    else if i == 3 { assert NETWORK_LIST[i] == ETHEREUM_SEPOLIA; }
    else if i == 4 { assert NETWORK_LIST[i] == POLYGON; }
    else { assert NETWORK_LIST[i] == ROLLUX; }
  }

  /** Every `NETWORKS` value is listed. */
  lemma TableValuesListed(k: string)
    requires k in NETWORKS
    ensures NETWORKS[k] in NETWORK_LIST
  {
    TableLookups();
    KeyCases(k);
  }

  /** `NETWORK_LIST` lists each `NETWORKS` value once, each under its own `key`. */
  lemma NetworkListIsTable()
    ensures NoDuplicates(NETWORK_LIST)
    ensures forall i :: 0 <= i < |NETWORK_LIST| ==>
      var k := ToPropertyKey(Get(NETWORK_LIST[i], Key)); k in NETWORKS && NETWORKS[k] == NETWORK_LIST[i]
    ensures forall k :: k in NETWORKS ==> NETWORKS[k] in NETWORK_LIST
  {
    NetworkListDistinct();
    forall i | 0 <= i < |NETWORK_LIST|
      ensures var k := ToPropertyKey(Get(NETWORK_LIST[i], Key)); k in NETWORKS && NETWORKS[k] == NETWORK_LIST[i]
    {
      NetworkListEntriesStored(i);
    }
    forall k | k in NETWORKS ensures NETWORKS[k] in NETWORK_LIST {
      TableValuesListed(k);
    }
  }
}
