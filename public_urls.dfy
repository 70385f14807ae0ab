/** The public branch of `get_s3_file_url` (legacy format) and of
    `get_s3_file_url_new` (the format Oracle recommends since 2024). The
    configured endpoint is a parameter here. */
module PublicUrls {
  import opened Outcomes
  import opened PyStrings

  /** The only failure of the public branch: `parts[3]` is out of range.
      It is raised to the caller, since this branch is outside the `try`. */
  datatype UrlError = IndexError

  /** The endpoint with every `https://` and then every `http://` removed,
      split on `.`: at least one token, none holding a `.`. */
  function EndpointTokens(endpoint: string): (parts: seq<string>)
    ensures |parts| >= 1
    ensures forall i :: 0 <= i < |parts| ==> '.' !in parts[i]
  {
    Split(RemoveAll(RemoveAll(endpoint, "https://"), "http://"), '.')
  }

  /** The namespace (token 0) and the region (token 3) of an endpoint. */
  datatype Location = Location(namespace: string, region: string)

  /** The tokens the URL is built from, or the index error raised when the
      endpoint yields fewer than four tokens. Python reads `parts[0]` first,
      which always exists; `parts[3]` is the one that can fail. Since removing
      the schemes keeps every `.`, that happens exactly when the endpoint
      has fewer than three dots. */
  function EndpointLocation(endpoint: string): (r: Result<Location, UrlError>)
    ensures r.Failure? <==> multiset(endpoint)['.'] < 3
    ensures r.Success? ==> '.' !in r.value.namespace && '.' !in r.value.region
  {
    var parts := EndpointTokens(endpoint);
    TokenCount(endpoint);
    if |parts| < 4 then Failure(IndexError) else Success(Location(parts[0], parts[3]))
  }

  /** Stripping the schemes keeps every `.`, so the endpoint yields one
      token more than it has dots. */
  lemma {:induction false} TokenCount(endpoint: string)
    ensures |EndpointTokens(endpoint)| == multiset(endpoint)['.'] + 1
  {
    RemoveAllKeepsOthers(endpoint, "https://", '.');
    RemoveAllKeepsOthers(RemoveAll(endpoint, "https://"), "http://", '.');
  }

  /** The legacy template,
      `https://objectstorage.REGION.oraclecloud.com/n/NAMESPACE/b/BUCKET/o/KEY`. */
  function LegacyUrl(loc: Location, bucket: string, key: string): string {
    "https://objectstorage." + loc.region + ".oraclecloud.com/n/" + loc.namespace + "/b/" + bucket + "/o/" + key
  }

  /** The 2024 template,
      `https://NAMESPACE.objectstorage.REGION.oci.customer-oci.com/n/NAMESPACE/b/BUCKET/o/KEY`. */
  function Url2024(loc: Location, bucket: string, key: string): string {
    "https://" + loc.namespace + ".objectstorage." + loc.region + ".oci.customer-oci.com/n/"
      + loc.namespace + "/b/" + bucket + "/o/" + key
  }

  /** The public branch of `get_s3_file_url`. */
  function LegacyPublicUrl(endpoint: string, bucket: string, key: string): (r: Result<string, UrlError>)
    ensures r.Failure? <==> multiset(endpoint)['.'] < 3
  {
    match EndpointLocation(endpoint)
    case Failure(e) => Failure(e)
    case Success(loc) => Success(LegacyUrl(loc, bucket, key))
  }

  /** The public branch of `get_s3_file_url_new`. */
  function PublicUrl2024(endpoint: string, bucket: string, key: string): (r: Result<string, UrlError>)
    ensures r.Failure? <==> multiset(endpoint)['.'] < 3
  {
    match EndpointLocation(endpoint)
    case Failure(e) => Failure(e)
    case Success(loc) => Success(Url2024(loc, bucket, key))
  }

  /** Both public URLs are built from the same two tokens of the endpoint,
      token 0 as the namespace and token 3 as the region, and they fail
      together. */
  lemma BothUrlsShareTokens(endpoint: string, bucket: string, key: string)
    ensures LegacyPublicUrl(endpoint, bucket, key).Success? <==> PublicUrl2024(endpoint, bucket, key).Success?
    ensures LegacyPublicUrl(endpoint, bucket, key).Success? ==>
      var tokens := EndpointTokens(endpoint);
      && |tokens| >= 4
      && LegacyPublicUrl(endpoint, bucket, key).value == LegacyUrl(Location(tokens[0], tokens[3]), bucket, key)
      && PublicUrl2024(endpoint, bucket, key).value == Url2024(Location(tokens[0], tokens[3]), bucket, key)
  {
  }

  /** The object part shared by both templates. */
  function ObjectPath(loc: Location, bucket: string, key: string): string {
    "/n/" + loc.namespace + "/b/" + bucket + "/o/" + key
  }

  /** The two templates end in the same object path, and the 2024 URL is
      longer than the legacy one by the namespace plus six characters, so
      for the same endpoint, bucket and key the two never coincide. */
  lemma {:induction false} TemplatesDiffer(loc: Location, bucket: string, key: string)
    ensures var legacy, current, path := LegacyUrl(loc, bucket, key), Url2024(loc, bucket, key), ObjectPath(loc, bucket, key);
      && |current| == |legacy| + |loc.namespace| + 6
      && legacy != current
      && legacy[|legacy| - |path|..] == path
      && current[|current| - |path|..] == path
  {
    var legacy, current, path := LegacyUrl(loc, bucket, key), Url2024(loc, bucket, key), ObjectPath(loc, bucket, key);
    assert legacy == "https://objectstorage." + loc.region + ".oraclecloud.com" + path;
    assert current == "https://" + loc.namespace + ".objectstorage." + loc.region + ".oci.customer-oci.com" + path;
  }

  /** The labels of a standard endpoint's host, in order. */
  function OciLabels(namespace: string, region: string): seq<string> {
    [namespace, "compat", "objectstorage", region, "oraclecloud", "com"]
  }

  /** The endpoint format the helpers are written for:
      `SCHEME NAMESPACE.compat.objectstorage.REGION.oraclecloud.com`, the
      host being the labels above joined with dots. */
  function OciEndpoint(scheme: string, namespace: string, region: string): string {
    scheme + Join(OciLabels(namespace, region), '.')
  }

  /** A scheme prefix the helpers strip: `https://`, `http://` or none. */
  predicate KnownScheme(scheme: string) {
    scheme == "https://" || scheme == "http://" || scheme == ""
  }

  /** A `/`-free text contains neither scheme. */
  lemma {:induction false} NoSchemeWithoutSlash(s: string, pat: string)
    requires '/' !in s && pat != [] && pat[|pat| - 1] == '/'
    ensures !Occurs(s, pat)
  {
  }

  /** `http://` followed by `/`-free text contains no `https://`. */
  lemma {:induction false} HttpHoldsNoHttps(rest: string)
    requires '/' !in rest
    ensures !Occurs("http://" + rest, "https://")
  {
    var s := "http://" + rest;
    forall j: nat
      ensures !OccursAt(s, "https://", j)
    {
      if j + 8 <= |s| {
        assert s[j..j + 8][7] == s[j + 7] == rest[j];
      }
    }
  }

  /** With the scheme removed, a standard endpoint is its host. */
  lemma {:induction false} StripScheme(scheme: string, host: string)
    requires KnownScheme(scheme) && '/' !in host
    ensures RemoveAll(RemoveAll(scheme + host, "https://"), "http://") == host
  {
    NoSchemeWithoutSlash(host, "https://");
    NoSchemeWithoutSlash(host, "http://");
    RemoveAllAbsent(host, "http://");
    if scheme == "https://" {
      RemoveAllLeading("https://", host);
      RemoveAllAbsent(host, "https://");
    } else if scheme == "http://" {
      HttpHoldsNoHttps(host);
      RemoveAllAbsent("http://" + host, "https://");
      RemoveAllLeading("http://", host);
    } else {
      assert scheme + host == host;
      RemoveAllAbsent(host, "https://");
    }
  }

  /** The fixed labels hold neither `.` nor `/`, so a label holds one only
      when the namespace or the region does. */
  lemma LabelsLack(namespace: string, region: string, x: char)
    requires x == '.' || x == '/'
    requires x !in namespace && x !in region
    ensures forall i :: 0 <= i < |OciLabels(namespace, region)| ==> x !in OciLabels(namespace, region)[i]
  {
    var labels := OciLabels(namespace, region);
    assert labels[1] == "compat" && labels[2] == "objectstorage";
    assert labels[4] == "oraclecloud" && labels[5] == "com";
  }

  /** The tokens of a standard endpoint are its six labels, the namespace
      first and the region fourth. */
  lemma {:induction false} StandardTokens(scheme: string, namespace: string, region: string)
    requires KnownScheme(scheme)
    requires '.' !in namespace && '/' !in namespace && '.' !in region && '/' !in region
    ensures EndpointTokens(OciEndpoint(scheme, namespace, region)) == OciLabels(namespace, region)
  {
    var labels := OciLabels(namespace, region);
    var host := Join(labels, '.');
    LabelsLack(namespace, region, '.');
    LabelsLack(namespace, region, '/');
    JoinLacks(labels, '.', '/');
    StripScheme(scheme, host);
    SplitJoin(labels, '.');
  }

  /** A standard endpoint, with either scheme or none, yields its own
      namespace and region, so both public URLs are the documented ones. */
  lemma {:induction false} StandardEndpointLocation(scheme: string, namespace: string, region: string)
    requires KnownScheme(scheme)
    requires '.' !in namespace && '/' !in namespace && '.' !in region && '/' !in region
    ensures EndpointLocation(OciEndpoint(scheme, namespace, region)) == Success(Location(namespace, region))
  {
    StandardTokens(scheme, namespace, region);
  }
}
