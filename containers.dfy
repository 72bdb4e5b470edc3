/**
 * containers.py: the `Container` record built from one container descriptor of the Engine API's
 * `/containers/json` answer, its derived port properties, and the loop of `get_containers` that
 * turns the decoded descriptors into records.
 */
module Containers {
  import opened Wrappers
  import opened PyStr

  /**
   * One entry of a descriptor's `Ports` list. Each field is `None` when its key is absent;
   * `hasOtherKeys` stands for the keys the properties never read (`Type`, for instance).
   */
  datatype PortEntry = PortEntry(ip: Option<string>, publicPort: Option<nat>, privatePort: Option<nat>, hasOtherKeys: bool)
  {
    /** A dictionary is falsy exactly when it has no key at all. */
    predicate IsEmpty()
    {
      ip.None? && publicPort.None? && privatePort.None? && !hasOtherKeys
    }
  }

  /** The `{}` that stands in for the network info of a container without port mappings. */
  const NO_NETWORK_INFO := PortEntry(None, None, None, false)

  /**
   * The keys of a descriptor that `Container.__init__` reads, each `None` when absent.
   * `ports` is also `None` when the key holds `null`, which `get` returns as it is.
   */
  datatype Descriptor = Descriptor(
    names: Option<seq<string>>,
    image: Option<string>,
    state: Option<string>,
    status: Option<string>,
    ports: Option<seq<PortEntry>>)

  /** The exceptions `Container.__init__` can raise on a descriptor. */
  datatype InitError = KeyError(key: string) | IndexError

  /** The attributes `Container.__init__` assigns; they are never reassigned afterwards. */
  datatype Container = Container(
    name: string,
    image: string,
    state: string,
    status: string,
    ports: seq<PortEntry>,
    networkInfo: PortEntry)

  /**
   * `Container(info)`: the first failing subscript raises, in the order `Names`, `Names[0]`,
   * `Image`, `State`, `Status`; `Ports` is optional and only its first entry becomes the network info.
   */
  function NewContainer(info: Descriptor): (r: Result<Container, InitError>)
    ensures r.Ok? <==>
      info.names.Some? && info.names.value != [] && info.image.Some? && info.state.Some? && info.status.Some?
    ensures info.names.None? ==> r == Err(KeyError("Names"))
    ensures info.names == Some([]) ==> r == Err(IndexError)
    ensures info.names.Some? && info.names.value != [] && info.image.None? ==> r == Err(KeyError("Image"))
    ensures info.names.Some? && info.names.value != [] && info.image.Some? && info.state.None? ==>
      r == Err(KeyError("State"))
    ensures info.names.Some? && info.names.value != [] && info.image.Some? && info.state.Some? && info.status.None? ==>
      r == Err(KeyError("Status"))
    ensures r.Ok? ==>
      && r.value.name == info.names.value[0]
      && r.value.image == info.image.value
      && r.value.state == info.state.value
      && r.value.status == info.status.value
    ensures r.Ok? && (info.ports.None? || info.ports == Some([])) ==> r.value.networkInfo.IsEmpty()
    ensures r.Ok? && info.ports.Some? && info.ports.value != [] ==> r.value.networkInfo == info.ports.value[0]
  {
    match info.names
    case None => Err(KeyError("Names"))
    case Some(names) =>
      if names == [] then Err(IndexError)
      else match info.image
      case None => Err(KeyError("Image"))
      case Some(image) =>
        match info.state
        case None => Err(KeyError("State"))
        case Some(state) =>
          match info.status
          case None => Err(KeyError("Status"))
          case Some(status) =>
            var ports := match info.ports case None => [] case Some(ps) => ps;
            Ok(Container(names[0], image, state, status, ports, if ports == [] then NO_NETWORK_INFO else ports[0]))
  }

  /** The `public_host` property. */
  function PublicHost(c: Container): string
  {
    match c.networkInfo.ip
    case None => ""
    case Some(h) => h
  }

  /** The `public_port` property. */
  function PublicPort(c: Container): nat
  {
    match c.networkInfo.publicPort
    case None => 0
    case Some(p) => p
  }

  /** The `private_port` property. */
  function PrivatePort(c: Container): nat
  {
    match c.networkInfo.privatePort
    case None => 0
    case Some(p) => p
  }

  /**
   * `port or ''` formatted: nothing for 0, otherwise `str(port)`, the decimal digits without a
   * leading zero, which `int` reads back; `DigitsValue` also reads the empty text as 0.
   */
  function PortText(p: nat): (t: string)
    ensures t == "" <==> p == 0
    ensures t == "" || t[0] != '0'
    ensures AllDigits(t) && DigitsValue(t) == p
  {
    if p == 0 then "" else NatToStrRoundTrip(p); NatToStr(p)
  }

  /** The `ports` property. */
  function Ports(c: Container): (s: string)
    ensures s == "" <==> c.networkInfo.IsEmpty()
  {
    if c.networkInfo.IsEmpty() then ""
    else PublicHost(c) + ":" + PortText(PublicPort(c)) + ":" + PortText(PrivatePort(c))
  }

  /** `public_host` is the `IP` of the first `Ports` entry, or `''` without a first entry or without that key. */
  lemma PublicHostOf(info: Descriptor)
    requires NewContainer(info).Ok?
    ensures PublicHost(NewContainer(info).value) ==
      if info.ports.Some? && info.ports.value != [] && info.ports.value[0].ip.Some? then info.ports.value[0].ip.value
      else ""
  {
  }

  /** `public_port` is the `PublicPort` of the first `Ports` entry, or 0 without a first entry or without that key. */
  lemma PublicPortOf(info: Descriptor)
    requires NewContainer(info).Ok?
    ensures PublicPort(NewContainer(info).value) ==
      if info.ports.Some? && info.ports.value != [] && info.ports.value[0].publicPort.Some? then info.ports.value[0].publicPort.value
      else 0
  {
  }

  /** `private_port` is the `PrivatePort` of the first `Ports` entry, or 0 without a first entry or without that key. */
  lemma PrivatePortOf(info: Descriptor)
    requires NewContainer(info).Ok?
    ensures PrivatePort(NewContainer(info).value) ==
      if info.ports.Some? && info.ports.value != [] && info.ports.value[0].privatePort.Some? then info.ports.value[0].privatePort.value
      else 0
  {
  }

  /** Without network info every property takes its default and `ports` is empty. */
  lemma NoNetworkInfoDefaults(info: Descriptor)
    requires NewContainer(info).Ok?
    requires info.ports.None? || info.ports == Some([]) || info.ports.value[0].IsEmpty()
    ensures var c := NewContainer(info).value;
      PublicHost(c) == "" && PublicPort(c) == 0 && PrivatePort(c) == 0 && Ports(c) == ""
  {
  }

  /** An entry holding only keys the properties ignore is truthy, so `ports` is the bare `::`. */
  lemma OnlyUnreadKeysGiveColons(c: Container)
    requires c.networkInfo == PortEntry(None, None, None, true)
    ensures Ports(c) == "::"
  {
  }

  /** Only the first entry of `Ports` is read: the entries after it change nothing. */
  lemma OnlyFirstPortUsed(info: Descriptor, p: PortEntry, rest: seq<PortEntry>)
    requires info.ports == Some([p] + rest)
    ensures NewContainer(info).Ok? <==> NewContainer(info.(ports := Some([p]))).Ok?
    ensures NewContainer(info).Ok? ==>
      var c, first := NewContainer(info).value, NewContainer(info.(ports := Some([p]))).value;
      && c.networkInfo == first.networkInfo == p
      && PublicHost(c) == PublicHost(first)
      && PublicPort(c) == PublicPort(first)
      && PrivatePort(c) == PrivatePort(first)
      && Ports(c) == Ports(first)
  {
  }

  /**
   * When the host holds no `:`, splitting `ports` on `:` gives back the host and the two port
   * fields. A field is empty exactly for port 0; any other field is the port's digits, without
   * leading zeros, just as `str` writes them.
   */
  lemma PortsRoundTrip(c: Container)
    requires !c.networkInfo.IsEmpty() && !Contains(PublicHost(c), ":")
    ensures var parts := Split(Ports(c), ":");
      && |parts| == 3
      && parts[0] == PublicHost(c)
      && (parts[1] == "" <==> PublicPort(c) == 0)
      && (parts[2] == "" <==> PrivatePort(c) == 0)
      && (parts[1] == "" || parts[1][0] != '0')
      && (parts[2] == "" || parts[2][0] != '0')
      && AllDigits(parts[1]) && DigitsValue(parts[1]) == PublicPort(c)
      && AllDigits(parts[2]) && DigitsValue(parts[2]) == PrivatePort(c)
  {
    var h, a, b := PublicHost(c), PortText(PublicPort(c)), PortText(PrivatePort(c));
    DigitsHaveNoColon(a);
    DigitsHaveNoColon(b);
    var ps := [h, a, b];
    assert Join(ps, ":") == Ports(c) by {
      assert ps[1..] == [a, b] && [a, b][1..] == [b];
      assert Join([a, b], ":") == a + ":" + b;
      assert h + ":" + (a + ":" + b) == h + ":" + a + ":" + b;
    }
    SplitJoin(ps, ":");
  }

  /** A published port: `10.0.0.5`, port 8080 mapped to 80, reads as `10.0.0.5:8080:80`. */
  lemma DockerExample()
    ensures var info := Descriptor(Some(["/web"]), Some("nginx"), Some("running"), Some("Up 2 hours"),
                                   Some([PortEntry(Some("10.0.0.5"), Some(8080), Some(80), false)]));
      && NewContainer(info).Ok?
      && NewContainer(info).value.name == "/web"
      && PublicHost(NewContainer(info).value) == "10.0.0.5"
      && PublicPort(NewContainer(info).value) == 8080
      && PrivatePort(NewContainer(info).value) == 80
      && Ports(NewContainer(info).value) == "10.0.0.5:8080:80"
  {
    assert DigitChar(0) == '0' && DigitChar(8) == '8';
    assert NatToStr(8) == "8";
    assert NatToStr(80) == "80";
    assert NatToStr(808) == "808";
    assert NatToStr(8080) == "8080";
  }

  /** What `get_containers` returns on the decoded descriptors, or the exception the first bad one raises. */
  function ContainersOf(data: seq<Descriptor>): (r: Result<seq<Container>, InitError>)
    ensures r.Ok? <==> forall i :: 0 <= i < |data| ==> NewContainer(data[i]).Ok?
    ensures r.Ok? ==> |r.value| == |data| && forall i :: 0 <= i < |data| ==> r.value[i] == NewContainer(data[i]).value
    ensures r.Err? ==> exists i :: 0 <= i < |data| && NewContainer(data[i]) == Err(r.error) &&
                                   (forall j :: 0 <= j < i ==> NewContainer(data[j]).Ok?)
    decreases |data|
  {
    if data == [] then Ok([])
    else
      var n := |data| - 1;
      var prefix := data[..n];
      assert forall i :: 0 <= i < n ==> prefix[i] == data[i];
      match ContainersOf(prefix)
      case Err(e) => Err(e)
      case Ok(cs) =>
        match NewContainer(data[n])
        case Err(e) => Err(e)
        case Ok(c) =>
          assert forall i :: 0 <= i < n ==> (cs + [c])[i] == cs[i];
          Ok(cs + [c])
  }

  /** A failure among the first `i` descriptors is the failure of the whole list. */
  lemma {:induction false} FailureIsFinal(data: seq<Descriptor>, i: nat)
    requires i <= |data| && ContainersOf(data[..i]).Err?
    ensures ContainersOf(data) == ContainersOf(data[..i])
    decreases |data| - i
  {
    if i < |data| {
      assert data[..i + 1][..i] == data[..i];
      FailureIsFinal(data, i + 1);
    } else {
      assert data[..i] == data;
    }
  }

  /** The loop of `get_containers` over the decoded descriptors. */
  method GetContainers(data: seq<Descriptor>) returns (r: Result<seq<Container>, InitError>)
    ensures r == ContainersOf(data)
  {
    var containers: seq<Container> := [];
    var i := 0;
    while i < |data|
      invariant 0 <= i <= |data|
      invariant ContainersOf(data[..i]) == Ok(containers)
    {
      assert data[..i + 1][..i] == data[..i];
      var c := NewContainer(data[i]);
      if c.Err? {
        FailureIsFinal(data, i + 1);
        return Err(c.error);
      }
      containers := containers + [c.value];
      i := i + 1;
    }
    assert data[..i] == data;
    return Ok(containers);
  }
}
