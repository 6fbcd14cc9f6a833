/** Image reference grammar: parsing and printing (lib/src/container/mod.rs). */
module ImageRef {
  import opened Outcomes
  import opened Text

  datatype Transport = Registry | OciDir | OciArchive | DockerArchive | ContainerStorage | Dir

  datatype ImageReference = ImageReference(transport: Transport, name: string)

  datatype SignatureSource =
    | OstreeRemote(remote: string)
    | ContainerPolicy
    | ContainerPolicyAllowInsecure

  datatype OstreeImageReference = OstreeImageReference(sigverify: SignatureSource, imgref: ImageReference)

  // ---- parsing ----

  function ParseTransport(s: string): Result<Transport> {
    if s == "registry" || s == "docker" then Ok(Registry)
    else if s == "oci" then Ok(OciDir)
    else if s == "oci-archive" then Ok(OciArchive)
    else if s == "docker-archive" then Ok(DockerArchive)
    else if s == "containers-storage" then Ok(ContainerStorage)
    else if s == "dir" then Ok(Dir)
    else Err
  }

  function ParseImage(value: string): Result<ImageReference> {
    match SplitOnce(value, ':')
    case None => Err
    case Some((transportName, name)) =>
      var transport :- ParseTransport(transportName);
      if name == "" then Err
      else if transportName == "docker" then
        match StripPrefix(name, "//")
        case None => Err
        case Some(rest) => Ok(ImageReference(transport, rest))
      else Ok(ImageReference(transport, name))
  }

  function ParseSignatureSource(value: string): Result<SignatureSource> {
    if value == "ostree-image-signed" then Ok(ContainerPolicy)
    else if value == "ostree-unverified-image" then Ok(ContainerPolicyAllowInsecure)
    else
      match StripPrefix(value, "ostree-remote-image:")
      case Some(rest) => Ok(OstreeRemote(rest))
      case None => Err
  }

  datatype Scheme = Signed | UnverifiedImage | UnverifiedRegistry | RemoteRegistry | RemoteImage

  function SchemeName(s: Scheme): string {
    match s
    case Signed => "ostree-image-signed"
    case UnverifiedImage => "ostree-unverified-image"
    case UnverifiedRegistry => "ostree-unverified-registry"
    case RemoteRegistry => "ostree-remote-registry"
    case RemoteImage => "ostree-remote-image"
  }

  function SchemeOf(first: string): Result<Scheme> {
    if first == SchemeName(Signed) then Ok(Signed)
    else if first == SchemeName(UnverifiedImage) then Ok(UnverifiedImage)
    else if first == SchemeName(UnverifiedRegistry) then Ok(UnverifiedRegistry)
    else if first == SchemeName(RemoteRegistry) then Ok(RemoteRegistry)
    else if first == SchemeName(RemoteImage) then Ok(RemoteImage)
    else Err
  }

  /** The policy and the image part that a scheme and its argument stand for. */
  function ParseScheme(s: Scheme, second: string): Result<(SignatureSource, string)> {
    match s
    case Signed => Ok((ContainerPolicy, second))
    case UnverifiedImage => Ok((ContainerPolicyAllowInsecure, second))
    case UnverifiedRegistry => Ok((ContainerPolicyAllowInsecure, "registry:" + second))
    case RemoteRegistry => (
      match SplitOnce(second, ':')
      case None => Err
      case Some((remote, rest)) => Ok((OstreeRemote(remote), "registry:" + rest)))
    case RemoteImage =>
      match SplitOnce(second, ':')
      case None => Err
      case Some((remote, rest)) => Ok((OstreeRemote(remote), rest))
  }

  function ParseOstreeParts(s: Scheme, second: string): Result<OstreeImageReference> {
    var (sigverify, rest) :- ParseScheme(s, second);
    var imgref :- ParseImage(rest);
    Ok(OstreeImageReference(sigverify, imgref))
  }

  function ParseOstreeImage(value: string): Result<OstreeImageReference> {
    match SplitOnce(value, ':')
    case None => Err
    case Some((first, second)) =>
      var s :- SchemeOf(first);
      ParseOstreeParts(s, second)
  }

  // ---- printing ----

  /** The transport name that is printed before the first `:`. */
  function PrintedName(t: Transport): string {
    match t
    case Registry => "docker"
    case OciArchive => "oci-archive"
    case DockerArchive => "docker-archive"
    case OciDir => "oci"
    case ContainerStorage => "containers-storage"
    case Dir => "dir"
  }

  function PrintTransport(t: Transport): string {
    PrintedName(t) + ":" + if t.Registry? then "//" else ""
  }

  function PrintImage(r: ImageReference): string {
    PrintTransport(r.transport) + r.name
  }

  function PrintSignatureSource(s: SignatureSource): string {
    match s
    case OstreeRemote(r) => "ostree-remote-image:" + r
    case ContainerPolicy => "ostree-image-signed"
    case ContainerPolicyAllowInsecure => "ostree-unverified-image"
  }

  /** The non-alternate form. */
  function PrintOstreeImage(r: OstreeImageReference): string {
    if r.sigverify.ContainerPolicyAllowInsecure? && r.imgref.transport.Registry?
    then "ostree-unverified-registry:" + r.imgref.name
    else PrintSignatureSource(r.sigverify) + ":" + PrintImage(r.imgref)
  }

  // ---- round trips ----

  /** The part of a printed reference after the first `:`. */
  function PrintedRest(r: ImageReference): string {
    if r.transport.Registry? then "//" + r.name else r.name
  }

  lemma SplitPrinted(r: ImageReference)
    ensures SplitOnce(PrintImage(r), ':') == Some((PrintedName(r.transport), PrintedRest(r)))
  {
    assert PrintImage(r) == PrintedName(r.transport) + ":" + PrintedRest(r);
    SplitOnceOfJoined(PrintedName(r.transport), ':', PrintedRest(r));
  }

  predicate Named(r: ImageReference) {
    r.name != "" || r.transport.Registry?
  }

  /** Printing an image reference can be undone exactly when it has a name; for the registry
      transport the `//` stands in for a missing one. */
  lemma ImageRoundTrip(r: ImageReference)
    ensures ParseImage(PrintImage(r)) == Ok(r) <==> Named(r)
    ensures !Named(r) ==> ParseImage(PrintImage(r)).Err?
  {
    SplitPrinted(r);
    TransportNames(r.transport);
    if r.transport.Registry? {
      assert PrintedRest(r)[2..] == r.name;
    }
  }

  lemma TransportNames(t: Transport)
    ensures ParseTransport(PrintedName(t)) == Ok(t) && (PrintedName(t) == "docker" <==> t.Registry?)
  {
    assert |PrintedName(t)| == match t case Registry => 6 case OciDir => 3 case OciArchive => 11
      case DockerArchive => 14 case ContainerStorage => 18 case Dir => 3;
    assert PrintedName(OciDir)[0] == 'o' && PrintedName(Dir)[0] == 'd';
  }

  /** Whatever parses is named, so it survives printing. */
  lemma ParsedImageIsNamed(value: string)
    requires ParseImage(value).Ok?
    ensures Named(ParseImage(value).value)
    ensures ParseImage(PrintImage(ParseImage(value).value)) == ParseImage(value)
  {
    ImageRoundTrip(ParseImage(value).value);
  }

  lemma PrintImageInjective(a: ImageReference, b: ImageReference)
    ensures PrintImage(a) == PrintImage(b) <==> a == b
  {
    SplitPrinted(a);
    SplitPrinted(b);
    if PrintImage(a) == PrintImage(b) {
      assert a.transport == b.transport;
      if a.transport.Registry? {
        assert PrintedRest(a)[2..] == a.name && PrintedRest(b)[2..] == b.name;
      }
    }
  }

  lemma SignatureRoundTrip(s: SignatureSource)
    ensures ParseSignatureSource(PrintSignatureSource(s)) == Ok(s)
  {
    if s.OstreeRemote? {
      var p := PrintSignatureSource(s);
      assert p[|"ostree-remote-image:"|..] == s.remote;
      assert p[7] == 'r' && "ostree-image-signed"[7] == 'i' && "ostree-unverified-image"[7] == 'u';
    }
  }

  /** What a caller can check before printing: the remote has no colon, and there is a name
      (the short registry form has no `//` to stand in for it). */
  predicate Reparsable(r: OstreeImageReference) {
    && (r.sigverify.OstreeRemote? ==> ':' !in r.sigverify.remote)
    && (r.imgref.name != "" || (r.imgref.transport.Registry? && !r.sigverify.ContainerPolicyAllowInsecure?))
  }

  lemma ParseRegistry(name: string)
    ensures ParseImage("registry:" + name) == if name == "" then Err else Ok(ImageReference(Registry, name))
  {
    assert "registry:" + name == "registry" + ":" + name;
    SplitOnceOfJoined("registry", ':', name);
  }

  lemma SchemeNames(s: Scheme)
    ensures SchemeOf(SchemeName(s)) == Ok(s) && ':' !in SchemeName(s)
  {
    assert |SchemeName(Signed)| == 19 && |SchemeName(UnverifiedImage)| == 23 && |SchemeName(UnverifiedRegistry)| == 26;
    assert |SchemeName(RemoteRegistry)| == 22 && |SchemeName(RemoteImage)| == 19;
    assert SchemeName(Signed)[7] == 'i' && SchemeName(RemoteImage)[7] == 'r';
  }

  lemma ParseJoined(s: Scheme, second: string)
    ensures ParseOstreeImage(SchemeName(s) + ":" + second) == ParseOstreeParts(s, second)
  {
    SchemeNames(s);
    SplitOnceOfJoined(SchemeName(s), ':', second);
  }

  lemma OstreeImageRoundTrip(r: OstreeImageReference)
    ensures ParseOstreeImage(PrintOstreeImage(r)) == Ok(r) <==> Reparsable(r)
  {
    match r.sigverify
    case ContainerPolicyAllowInsecure => InsecureRoundTrip(r);
    case ContainerPolicy =>
      ParseJoined(Signed, PrintImage(r.imgref));
      ParsedPart(Signed, PrintImage(r.imgref), ContainerPolicy, r.imgref);
    case OstreeRemote(_) => RemoteRoundTrip(r);
  }

  /** When the scheme leaves the printed image, what is parsed is the image under that policy. */
  lemma ParsedPart(s: Scheme, second: string, policy: SignatureSource, img: ImageReference)
    requires ParseScheme(s, second) == Ok((policy, PrintImage(img)))
    ensures ParseOstreeParts(s, second) == if Named(img) then Ok(OstreeImageReference(policy, img)) else Err
  {
    ImageRoundTrip(img);
  }

  function PrintUnverified(img: ImageReference): string {
    PrintSignatureSource(ContainerPolicyAllowInsecure) + ":" + PrintImage(img)
  }

  lemma ParseUnverified(img: ImageReference)
    ensures ParseOstreeImage(PrintUnverified(img))
         == if Named(img) then Ok(OstreeImageReference(ContainerPolicyAllowInsecure, img)) else Err
  {
    ParseJoined(UnverifiedImage, PrintImage(img));
    ParsedPart(UnverifiedImage, PrintImage(img), ContainerPolicyAllowInsecure, img);
  }

  lemma InsecureRoundTrip(r: OstreeImageReference)
    requires r.sigverify.ContainerPolicyAllowInsecure?
    ensures ParseOstreeImage(PrintOstreeImage(r)) == Ok(r) <==> Reparsable(r)
    ensures !Reparsable(r) ==> ParseOstreeImage(PrintOstreeImage(r)).Err?
  {
    if r.imgref.transport.Registry? {
      UnverifiedRegistryPrinted(r.imgref.name);
      ParseUnverifiedRegistry(r.imgref.name);
      assert PrintOstreeImage(r) == SchemeName(UnverifiedRegistry) + ":" + r.imgref.name;
    } else {
      ParseUnverified(r.imgref);
      assert PrintOstreeImage(r) == PrintUnverified(r.imgref);
    }
  }

  lemma UnverifiedRegistryPrinted(name: string)
    ensures "ostree-unverified-registry:" + name == SchemeName(UnverifiedRegistry) + ":" + name
  {
    assert "ostree-unverified-registry:" == SchemeName(UnverifiedRegistry) + ":";
  }

  lemma ParseUnverifiedRegistry(name: string)
    ensures ParseOstreeImage(SchemeName(UnverifiedRegistry) + ":" + name)
         == if name == "" then Err else Ok(OstreeImageReference(ContainerPolicyAllowInsecure,
           ImageReference(Registry, name)))
  {
    ParseJoined(UnverifiedRegistry, name);
    ParseRegistry(name);
  }

  lemma RemoteRoundTrip(r: OstreeImageReference)
    requires r.sigverify.OstreeRemote?
    ensures ParseOstreeImage(PrintOstreeImage(r)) == Ok(r) <==> Reparsable(r)
  {
    var remote, img := r.sigverify.remote, PrintImage(r.imgref);
    RemotePrinted(r);
    ParseJoined(RemoteImage, remote + ":" + img);
    if ':' !in remote {
      SplitOnceOfJoined(remote, ':', img);
      ParsedPart(RemoteImage, remote + ":" + img, r.sigverify, r.imgref);
    } else {
      RemoteWithColon(remote, img);
    }
  }

  lemma RemotePrinted(r: OstreeImageReference)
    requires r.sigverify.OstreeRemote?
    ensures PrintOstreeImage(r) == SchemeName(RemoteImage) + ":" + (r.sigverify.remote + ":" + PrintImage(r.imgref))
  {
    var prefix := SchemeName(RemoteImage) + ":";
    assert "ostree-remote-image:" == prefix;
    Append(prefix, r.sigverify.remote, ":");
    Append(prefix, r.sigverify.remote + ":", PrintImage(r.imgref));
  }

  /** A remote with a colon is cut at that colon, so a different remote comes back. */
  lemma RemoteWithColon(remote: string, rest: string)
    requires ':' in remote
    ensures exists a, b :: SplitOnce(remote + ":" + rest, ':') == Some((a, b)) && a != remote
  {
    var i := Find(remote, ':');
    var s := remote + ":" + rest;
    assert s[..i] == remote[..i];
    FindUnique(s, ':', i);
    assert SplitOnce(s, ':') == Some((s[..i], s[i + 1..])) && s[..i] != remote;
  }

  /** A reference that was itself parsed need not survive: the nameless registry image does not. */
  lemma ParsedNeedNotReparse()
    ensures exists s :: (ParseOstreeImage(s).Ok? && ParseOstreeImage(PrintOstreeImage(ParseOstreeImage(s).value)).Err?)
  {
    var img := ImageReference(Registry, "");
    var r := OstreeImageReference(ContainerPolicyAllowInsecure, img);
    var s := PrintUnverified(img);
    ParseUnverified(img);
    InsecureRoundTrip(r);
  }

  // ---- the short forms for registries ----

  lemma RemotePart(remote: string, rest: string)
    requires ':' !in remote
    ensures ParseOstreeImage("ostree-remote-image:" + remote + ":" + rest)
      == match ParseImage(rest) { case Ok(img) => Ok(OstreeImageReference(OstreeRemote(remote), img)) case Err => Err }
  {
    var second := remote + ":" + rest;
    assert "ostree-remote-image:" + remote + ":" + rest == SchemeName(RemoteImage) + ":" + second;
    ParseJoined(RemoteImage, second);
    SplitOnceOfJoined(remote, ':', rest);
  }

  lemma RemoteRegistryPart(remote: string, rest: string)
    requires ':' !in remote
    ensures ParseOstreeImage("ostree-remote-registry:" + remote + ":" + rest)
      == if rest == "" then Err else Ok(OstreeImageReference(OstreeRemote(remote), ImageReference(Registry, rest)))
  {
    var second := remote + ":" + rest;
    assert "ostree-remote-registry:" + remote + ":" + rest == SchemeName(RemoteRegistry) + ":" + second;
    ParseJoined(RemoteRegistry, second);
    SplitOnceOfJoined(remote, ':', rest);
    ParseRegistry(rest);
  }

  /** `ostree-remote-registry` is short for `ostree-remote-image` with a registry, and verifies against
      the remote that it names. */
  lemma RemoteShorthand(remote: string, name: string)
    requires ':' !in remote && name != ""
    ensures ParseOstreeImage("ostree-remote-registry:" + remote + ":" + name)
      == ParseOstreeImage("ostree-remote-image:" + remote + ":" + ("registry:" + name))
      == Ok(OstreeImageReference(OstreeRemote(remote), ImageReference(Registry, name)))
  {
    RemoteRegistryPart(remote, name);
    RemotePart(remote, "registry:" + name);
    ParseRegistry(name);
  }

  lemma UnverifiedImagePrinted(rest: string)
    ensures "ostree-unverified-image:" + rest == SchemeName(UnverifiedImage) + ":" + rest
  {
    assert "ostree-unverified-image:" == SchemeName(UnverifiedImage) + ":";
  }

  /** And `ostree-unverified-registry` is short for `ostree-unverified-image` with a registry. */
  lemma UnverifiedShorthand(name: string)
    ensures ParseOstreeImage("ostree-unverified-registry:" + name)
      == ParseOstreeImage("ostree-unverified-image:" + ("registry:" + name))
      == if name == "" then Err
         else Ok(OstreeImageReference(ContainerPolicyAllowInsecure, ImageReference(Registry, name)))
  {
    UnverifiedRegistryPrinted(name);
    ParseUnverifiedRegistry(name);
    UnverifiedImagePrinted("registry:" + name);
    ParseJoined(UnverifiedImage, "registry:" + name);
    ParseRegistry(name);
  }

  /** Verification is left out only by a reference that says so, and a remote is used only by one that
      names it. */
  lemma PolicyIsSaid(first: string, second: string)
    requires ':' !in first && ParseOstreeImage(first + ":" + second).Ok?
    ensures var policy := ParseOstreeImage(first + ":" + second).value.sigverify;
      && (policy.ContainerPolicyAllowInsecure? <==>
            first == "ostree-unverified-image" || first == "ostree-unverified-registry")
      && (policy.ContainerPolicy? <==> first == "ostree-image-signed")
      && (policy.OstreeRemote? ==> policy.remote + ":" <= second)
  {
    SplitOnceOfJoined(first, ':', second);
    var s := SchemeOf(first).value;
    OnlyNamed(first, s);
    SchemePolicy(s, second);
  }

  lemma OnlyNamed(first: string, s: Scheme)
    requires SchemeOf(first) == Ok(s)
    ensures first == "ostree-image-signed" <==> s.Signed?
    ensures first == "ostree-unverified-image" <==> s.UnverifiedImage?
    ensures first == "ostree-unverified-registry" <==> s.UnverifiedRegistry?
  {
    SchemeNames(s);
    SchemeNames(Signed);
    SchemeNames(UnverifiedImage);
    SchemeNames(UnverifiedRegistry);
  }

  lemma SchemePolicy(s: Scheme, second: string)
    requires ParseScheme(s, second).Ok?
    ensures var policy := ParseScheme(s, second).value.0;
      && (policy.ContainerPolicyAllowInsecure? <==> s.UnverifiedImage? || s.UnverifiedRegistry?)
      && (policy.ContainerPolicy? <==> s.Signed?)
      && (policy.OstreeRemote? ==> policy.remote + ":" <= second)
  {
  }
}
