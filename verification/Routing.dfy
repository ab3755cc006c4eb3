/** `tools/util/util.go`: a client id is an encrypted host:port, so every node of a cluster
    can tell from an id which node owns the connection. Strings are byte strings here. */
module Routing {
  import opened Bytes
  import opened Lists
  import opened Crypto

  const COLON: byte := 58

  /** What `GlobalSetting.LocalHost` and `CommonSetting.RPCPort` hold on a node. */
  datatype Node = Node(host: Text, port: Text)

  datatype Address = Address(host: Text, port: Text)

  datatype Route = Route(addr: Text, host: Text, port: Text, isLocal: bool)

  function HostPort(host: Text, port: Text): Text {
    host + [COLON] + port
  }

  /** The id a node issues; `iv` stands for the random bytes drawn. */
  function GenClientId(aes: Text -> Cipher, node: Node, key: Text, iv: Block): Result<Text> {
    match Encrypt(aes, HostPort(node.host, node.port), key, iv)
    case Ok(id) => Ok(id)
    case Err(_) => Panic
    case Panic => Panic
  }

  function ParseRedisAddrValue(redisValue: Text): Result<Address> {
    if redisValue == [] then Err("bad address")
    else
      var addr := Split(redisValue, COLON);
      if |addr| != 2 then Err("bad address") else Ok(Address(addr[0], addr[1]))
  }

  predicate IsAddrLocal(node: Node, host: Text, port: Text) {
    host == node.host && port == node.port
  }

  function GetAddrInfoAndIsLocal(aes: Text -> Cipher, clientId: Text, node: Node, key: Text): Result<Route> {
    match Decrypt(aes, clientId, key)
    case Err(reason) => Err(reason)
    case Panic => Panic
    case Ok(addr) =>
      match ParseRedisAddrValue(addr)
      case Err(reason) => Err(reason)
      case Panic => Panic
      case Ok(a) => Ok(Route(addr, a.host, a.port, IsAddrLocal(node, a.host, a.port)))
  }

  /** Parsing succeeds on exactly the strings with one colon, and loses nothing. */
  lemma ParseIff(v: Text)
    ensures ParseRedisAddrValue(v).Ok? <==> Count(v, COLON) == 1
    ensures ParseRedisAddrValue(v).Ok? ==>
              var a := ParseRedisAddrValue(v).value;
              HostPort(a.host, a.port) == v && COLON !in a.host && COLON !in a.port
  {
    SplitLength(v, COLON);
    JoinSplit(v, COLON);
    var parts := Split(v, COLON);
    if |parts| == 2 {
      assert Join(parts, COLON) == parts[0] + [COLON] + Join(parts[1..], COLON);
    }
  }

  lemma ParseHostPort(host: Text, port: Text)
    ensures ParseRedisAddrValue(HostPort(host, port)).Ok? <==> COLON !in host && COLON !in port
    ensures COLON !in host && COLON !in port ==>
              ParseRedisAddrValue(HostPort(host, port)) == Ok(Address(host, port))
  {
    var v := HostPort(host, port);
    CountAppend(host + [COLON], port, COLON);
    CountAppend(host, [COLON], COLON);
    CountPositive(host, COLON);
    CountPositive(port, COLON);
    ParseIff(v);
    if COLON !in host && COLON !in port {
      SplitHead(host, port, COLON);
      SplitPlain(port, COLON);
    }
  }

  /** Issuing an id panics exactly when the key has not one of the three sizes. */
  lemma IssuesIff(aes: Text -> Cipher, node: Node, key: Text, iv: Block)
    requires forall k :: ValidKey(k) ==> IsPermutation(aes(k))
    ensures GenClientId(aes, node, key, iv) == Panic <==> !(|key| == 16 || |key| == 24 || |key| == 32)
    ensures GenClientId(aes, node, key, iv) != Panic ==> GenClientId(aes, node, key, iv).Ok?
  {
    DecryptEncrypt(aes, HostPort(node.host, node.port), key, iv);
  }

  /** An id issued by `owner` is understood by a node exactly when neither the owner's host
      nor its port has a colon (an IPv6 host has), and then it gives the owner's address on
      every node and counts as local on a node with that address only. */
  lemma RouteOfIssuedId(aes: Text -> Cipher, owner: Node, node: Node, key: Text, iv: Block)
    requires forall k :: ValidKey(k) ==> IsPermutation(aes(k))
    requires ValidKey(key)
    ensures GenClientId(aes, owner, key, iv).Ok?
    ensures var route := GetAddrInfoAndIsLocal(aes, GenClientId(aes, owner, key, iv).value, node, key);
            && (route.Ok? <==> COLON !in owner.host && COLON !in owner.port)
            && (route.Ok? ==>
                  route.value == Route(HostPort(owner.host, owner.port), owner.host, owner.port, node == owner))
  {
    DecryptEncrypt(aes, HostPort(owner.host, owner.port), key, iv);
    ParseHostPort(owner.host, owner.port);
  }

  /** In a cluster of different colon-free addresses sharing a key, exactly one node takes
      an issued id as its own: the node that issued it. */
  lemma UniqueRouting(aes: Text -> Cipher, cluster: seq<Node>, i: nat, key: Text, iv: Block)
    requires forall k :: ValidKey(k) ==> IsPermutation(aes(k))
    requires ValidKey(key) && i < |cluster|
    requires NoDuplicates(cluster)
    requires COLON !in cluster[i].host && COLON !in cluster[i].port
    ensures GenClientId(aes, cluster[i], key, iv).Ok?
    ensures var id := GenClientId(aes, cluster[i], key, iv).value;
            forall j :: 0 <= j < |cluster| ==>
              var route := GetAddrInfoAndIsLocal(aes, id, cluster[j], key);
              && route.Ok?
              && route.value.addr == HostPort(cluster[i].host, cluster[i].port)
              && (route.value.isLocal <==> j == i)
  {
    RouteOfIssuedId(aes, cluster[i], cluster[i], key, iv);
    forall j | 0 <= j < |cluster|
      ensures var route := GetAddrInfoAndIsLocal(aes, GenClientId(aes, cluster[i], key, iv).value, cluster[j], key);
              && route.Ok?
              && route.value.addr == HostPort(cluster[i].host, cluster[i].port)
              && (route.value.isLocal <==> j == i)
    {
      RouteOfIssuedId(aes, cluster[i], cluster[j], key, iv);
      assert j < i ==> cluster[j] != cluster[i];
      assert i < j ==> cluster[i] != cluster[j];
    }
  }

  /** Ids are unique: two draws give the same id exactly when both the issuing address, as
      host:port, and the random bytes are the same. */
  lemma IssuedIdsDistinct(aes: Text -> Cipher, n1: Node, n2: Node, key: Text, iv1: Block, iv2: Block)
    requires forall k :: ValidKey(k) ==> IsPermutation(aes(k))
    requires ValidKey(key)
    ensures GenClientId(aes, n1, key, iv1) == GenClientId(aes, n2, key, iv2)
            <==> HostPort(n1.host, n1.port) == HostPort(n2.host, n2.port) && iv1 == iv2
  {
    DecryptEncrypt(aes, HostPort(n1.host, n1.port), key, iv1);
    DecryptEncrypt(aes, HostPort(n2.host, n2.port), key, iv2);
    EncryptInjective(aes, HostPort(n1.host, n1.port), HostPort(n2.host, n2.port), key, iv1, iv2);
  }

  // ---- SendMessage2Client and CloseClient ----

  /** Where a call about an id goes: to this node, to the node at an address (which only
      `CloseClient` does; a message is dropped there), nowhere, or a panic. */
  datatype Destination = Here | At(addr: Text) | Nowhere | Crash

  function Dispatch(aes: Text -> Cipher, isCluster: bool, clientId: Text, node: Node, key: Text): Destination {
    if !isCluster then Here
    else
      match GetAddrInfoAndIsLocal(aes, clientId, node, key)
      case Ok(route) => if route.isLocal then Here else At(route.addr)
      case Err(_) => Nowhere
      case Panic => Crash
  }

  /** For any id, issued or not: a node outside a cluster handles every call itself. In a
      cluster it handles a call exactly when the id decrypts to its own address, with no other
      colon in it, addresses another node exactly when it decrypts to another address, and
      panics exactly when the decryption does. */
  lemma DispatchIff(aes: Text -> Cipher, isCluster: bool, clientId: Text, node: Node, key: Text, addr: Text)
    ensures var to, raw, own := Dispatch(aes, isCluster, clientId, node, key), Decrypt(aes, clientId, key),
                                HostPort(node.host, node.port);
            if !isCluster then to == Here
            else
              && (to == Here <==> raw == Ok(own) && COLON !in node.host && COLON !in node.port)
              && (to == At(addr) <==> raw == Ok(addr) && Count(addr, COLON) == 1 && addr != own)
              && (to == Crash <==> raw == Panic)
  {
    if isCluster && Decrypt(aes, clientId, key).Ok? {
      var raw, own := Decrypt(aes, clientId, key).value, HostPort(node.host, node.port);
      ParseIff(raw);
      ParseHostPort(node.host, node.port);
      ParseIff(own);
    }
  }

  /** In a cluster a call about an issued id goes to its owner from everywhere: the owner
      handles it, every other node addresses the owner, and an id whose address has an extra
      colon goes nowhere, not even on its owner. */
  lemma DispatchOfIssuedId(aes: Text -> Cipher, owner: Node, node: Node, key: Text, iv: Block)
    requires forall k :: ValidKey(k) ==> IsPermutation(aes(k))
    requires ValidKey(key)
    ensures GenClientId(aes, owner, key, iv).Ok?
    ensures Dispatch(aes, true, GenClientId(aes, owner, key, iv).value, node, key) ==
            if COLON in owner.host || COLON in owner.port then Nowhere
            else if node == owner then Here
            else At(HostPort(owner.host, owner.port))
  {
    RouteOfIssuedId(aes, owner, node, key, iv);
    DecryptEncrypt(aes, HostPort(owner.host, owner.port), key, iv);
  }
}
