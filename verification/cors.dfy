/** The server's cross-origin policy: which `Origin` values are let through,
    and the methods and headers a preflight announces. */
module Cors {
  import opened Strings

  /** The origins allowed when `CLIENT_URL` is not set. */
  const DefaultOrigins: seq<string> := ["http://localhost:5173", "http://localhost:3000"]

  const AllowedMethods: seq<string> := ["GET", "POST", "PUT", "DELETE"]
  const AllowedHeaders: seq<string> := ["Content-Type", "Authorization"]

  function TrimAll(parts: seq<string>): (r: seq<string>)
    ensures |r| == |parts| && forall k :: 0 <= k < |r| ==> r[k] == Trim(parts[k])
  {
    if parts == [] then [] else [Trim(parts[0])] + TrimAll(parts[1..])
  }

  /** The allow-list: the comma-separated, trimmed parts of `CLIENT_URL`
      when it is set and non-empty, the two local development origins
      otherwise. */
  function AllowList(clientUrl: Option<string>): (r: seq<string>)
    ensures !Truthy(clientUrl) ==> r == DefaultOrigins
    ensures Truthy(clientUrl) ==> forall k :: 0 <= k < |r| ==> Trim(r[k]) == r[k] && ',' !in r[k]
    ensures Truthy(clientUrl) ==> |r| == |Split(clientUrl.value, ',')| && Join(Split(clientUrl.value, ','), [',']) == clientUrl.value
    ensures Truthy(clientUrl) ==> forall k :: 0 <= k < |r| ==> r[k] == Trim(Split(clientUrl.value, ',')[k])
  {
    if Truthy(clientUrl) then
      var parts := Split(clientUrl.value, ',');
      TrimmedFields(parts);
      JoinSplit(clientUrl.value, ',');
      TrimAll(parts)
    else DefaultOrigins
  }

  /** The trimmed fields of a split are trimmed and hold no separator. */
  lemma TrimmedFields(parts: seq<string>)
    requires forall k :: 0 <= k < |parts| ==> ',' !in parts[k]
    ensures forall k :: 0 <= k < |TrimAll(parts)| ==> Trim(TrimAll(parts)[k]) == TrimAll(parts)[k] && ',' !in TrimAll(parts)[k]
  {
    forall k | 0 <= k < |parts| ensures Trim(Trim(parts[k])) == Trim(parts[k]) && ',' !in Trim(parts[k]) {
      TrimIdempotent(parts[k]);
      TrimKeepsOut(parts[k], ',');
    }
  }

  datatype Decision = Allow | Deny(message: string)

  /** The `origin` callback: a request without an origin is allowed; one
      with an origin is allowed iff the origin is exactly on the list. */
  function CheckOrigin(origin: Option<string>, clientUrl: Option<string>): (r: Decision)
    ensures !Truthy(origin) ==> r == Allow
    ensures Truthy(origin) ==> (r == Allow <==> origin.value in AllowList(clientUrl))
    ensures r.Deny? ==> r.message == "Not allowed by CORS"
  {
    if !Truthy(origin) then Allow
    else if origin.value in AllowList(clientUrl) then Allow
    else Deny("Not allowed by CORS")
  }

  /** Without `CLIENT_URL` exactly the two development origins pass. */
  lemma DefaultPolicy(origin: string)
    requires origin != ""
    ensures CheckOrigin(Some(origin), None) == Allow <==>
              origin == "http://localhost:5173" || origin == "http://localhost:3000"
  {
  }

  /** Listing trimmed, comma-free origins in `CLIENT_URL` allows exactly them. */
  lemma ConfiguredPolicy(origins: seq<string>, origin: string)
    requires |origins| >= 1 && origin != ""
    requires forall k :: 0 <= k < |origins| ==> ',' !in origins[k] && Trim(origins[k]) == origins[k]
    requires Join(origins, ",") != ""
    ensures CheckOrigin(Some(origin), Some(Join(origins, ","))) == Allow <==> origin in origins
  {
    var url := Join(origins, ",");
    assert url == Join(origins, [',']);
    SplitJoin(origins, ',');
    TrimAllFixed(origins);
    ConfiguredList(url);
    assert AllowList(Some(url)) == origins;
  }

  lemma ConfiguredList(url: string)
    requires url != ""
    ensures AllowList(Some(url)) == TrimAll(Split(url, ','))
  {
  }

  /** Trimming parts that are already trimmed changes nothing. */
  lemma TrimAllFixed(parts: seq<string>)
    requires forall k :: 0 <= k < |parts| ==> Trim(parts[k]) == parts[k]
    ensures TrimAll(parts) == parts
  {
    var r := TrimAll(parts);
    assert forall k :: 0 <= k < |r| ==> r[k] == parts[k];
  }

  /** With `CLIENT_URL` set, an origin that begins or ends with white space
      is never allowed: every entry is trimmed. */
  lemma PaddedOriginDenied(origin: string, clientUrl: string)
    requires origin != "" && (IsSpace(origin[0]) || IsSpace(origin[|origin| - 1])) && clientUrl != ""
    ensures CheckOrigin(Some(origin), Some(clientUrl)).Deny?
  {
    var parts := Split(clientUrl, ',');
    var list := TrimAll(parts);
    assert AllowList(Some(clientUrl)) == list;
    forall k | 0 <= k < |list| ensures list[k] != origin {
      TrimNotPadded(parts[k], origin);
    }
    assert origin !in list;
  }

  /** The `Access-Control-Allow-Methods` and `-Headers` values of a preflight. */
  function MethodsHeader(): (r: string)
    ensures Split(r, ',') == AllowedMethods
  {
    SplitJoin(AllowedMethods, ',');
    Join(AllowedMethods, [','])
  }

  function HeadersHeader(): (r: string)
    ensures Split(r, ',') == AllowedHeaders
  {
    SplitJoin(AllowedHeaders, ',');
    Join(AllowedHeaders, [','])
  }
}
