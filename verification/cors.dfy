/** The CORS origin check of the backend: the list of allowed origins,
    built from fixed deployment URLs and the optional `FRONTEND_URL`
    setting, and the decision taken for each request's `Origin`. */
module Cors {

  import opened Wrappers
  import Strings

  const LocalDevOrigin: string := "http://localhost:5173"
  const OldDeploymentOrigin: string := "https://urban-stay-3tzl.vercel.app"
  const CurrentDeploymentOrigin: string := "https://urban-stay-smoky.vercel.app"
  const PreviewDeploymentOrigin: string :=
    "https://urban-stay-3tzl-kfpz1zqje-anurag-singhs-projects-5f7d2241.vercel.app"

  /** The substring that admits any Vercel deployment. */
  const VercelMarker: string := ".vercel.app"

  /** `filter(Boolean)` on a list of optional strings: the absent entries
      and the empty strings go, the rest stay in order. */
  function Compact(xs: seq<Option<string>>): (r: seq<string>)
    ensures |r| <= |xs|
    ensures forall x :: x in r <==> Some(x) in xs && x != ""
  {
    if xs == [] then []
    else
      var rest := Compact(xs[1..]);
      assert forall x :: Some(x) in xs <==> xs[0] == Some(x) || Some(x) in xs[1..];
      if Strings.Truthy(xs[0]) then [xs[0].value] + rest else rest
  }

  /** The three deployment URLs that close the list. */
  const DeploymentOrigins: seq<Option<string>> :=
    [Some(OldDeploymentOrigin), Some(CurrentDeploymentOrigin), Some(PreviewDeploymentOrigin)]

  /** The configured list: the local development server, `FRONTEND_URL`
      when it is set to something, and the three deployment URLs. */
  function AllowedOrigins(frontendUrl: Option<string>): (r: seq<string>)
    ensures r == [LocalDevOrigin] + (if Strings.Truthy(frontendUrl) then [frontendUrl.value] else [])
                 + [OldDeploymentOrigin, CurrentDeploymentOrigin, PreviewDeploymentOrigin]
  {
    DeploymentOriginsKept();
    CompactPair(Some(LocalDevOrigin), frontendUrl, DeploymentOrigins);
    Compact([Some(LocalDevOrigin), frontendUrl] + DeploymentOrigins)
  }

  /** The three deployment URLs are non-empty, so they all stay. */
  lemma DeploymentOriginsKept()
    ensures Compact(DeploymentOrigins) == [OldDeploymentOrigin, CurrentDeploymentOrigin, PreviewDeploymentOrigin]
  {
    CompactKeepsTruthy(DeploymentOrigins);
  }

  /** What the list holds: the four fixed origins, `FRONTEND_URL` exactly
      when it is a non-empty string, and nothing else; no entry is empty. */
  lemma AllowedOriginsContents(frontendUrl: Option<string>, x: string)
    ensures x in AllowedOrigins(frontendUrl) <==>
              x == LocalDevOrigin || x == OldDeploymentOrigin || x == CurrentDeploymentOrigin
              || x == PreviewDeploymentOrigin || (Strings.Truthy(frontendUrl) && x == frontendUrl.value)
    ensures "" !in AllowedOrigins(frontendUrl)
  {
    var xs := [Some(LocalDevOrigin), frontendUrl] + DeploymentOrigins;
    assert Some(x) in xs <==>
             x == LocalDevOrigin || Some(x) == frontendUrl || x == OldDeploymentOrigin
             || x == CurrentDeploymentOrigin || x == PreviewDeploymentOrigin;
  }

  datatype Decision = Allow | Reject

  /** The `origin` callback. A request without an `Origin` (or with an
      empty one) is let through; so is one whose origin is listed, and one
      whose origin contains ".vercel.app" anywhere. Every other origin is
      refused with an error. */
  function OriginDecision(origin: Option<string>, allowed: seq<string>): (d: Decision)
    ensures !Strings.Truthy(origin) ==> d == Allow
    ensures Strings.Truthy(origin) ==>
              (d == Allow <==> origin.value in allowed || Strings.Contains(origin.value, VercelMarker))
  {
    if !Strings.Truthy(origin) then Allow
    else if origin.value in allowed then Allow
    else if Strings.Contains(origin.value, VercelMarker) then Allow
    else Reject
  }

  /** Every configured origin is let through. */
  lemma ConfiguredOriginsAllowed(frontendUrl: Option<string>, x: string)
    requires x in AllowedOrigins(frontendUrl)
    ensures OriginDecision(Some(x), AllowedOrigins(frontendUrl)) == Allow
  {
  }

  /** `filter(Boolean)` keeps a list whose entries are all non-empty
      strings whole. */
  lemma {:induction false} CompactKeepsTruthy(xs: seq<Option<string>>)
    requires forall k :: 0 <= k < |xs| ==> Strings.Truthy(xs[k])
    ensures |Compact(xs)| == |xs|
    ensures forall k :: 0 <= k < |xs| ==> Some(Compact(xs)[k]) == xs[k]
  {
    if xs != [] {
      CompactKeepsTruthy(xs[1..]);
    }
  }

  /** `filter(Boolean)` on a kept entry, an optional one and a rest. */
  lemma CompactPair(head: Option<string>, u: Option<string>, tail: seq<Option<string>>)
    requires Strings.Truthy(head)
    ensures Compact([head, u] + tail)
         == [head.value] + (if Strings.Truthy(u) then [u.value] else []) + Compact(tail)
  {
    assert ([head, u] + tail)[1..] == [u] + tail;
    assert ([u] + tail)[1..] == tail;
  }

  /** An unset `FRONTEND_URL` and an empty one give the same list, of the
      four fixed origins; a non-empty one adds a fifth entry. */
  lemma UnsetFrontendUrlDropped(frontendUrl: string)
    ensures AllowedOrigins(None) == AllowedOrigins(Some(""))
    ensures |AllowedOrigins(None)| == 4
    ensures frontendUrl != "" ==> |AllowedOrigins(Some(frontendUrl))| == 5
  {
  }

  /** A string that includes a non-empty `t` holds `t`'s first character. */
  lemma {:induction false} ContainsFirstChar(s: string, t: string)
    requires t != [] && Strings.Contains(s, t)
    ensures t[0] in s
  {
    Strings.ContainsAt(s, t);
    var i :| Strings.OccursAt(s, t, i);
    assert s[i..i + |t|][0] == s[i];
  }

  /** The check is a substring test, not a host-suffix test: any origin
      with ".vercel.app" somewhere in it is let through, whatever the list
      holds; "https://app.vercel.app.example.com" is one. */
  lemma VercelAnywhereAllowed(prefix: string, suffix: string, allowed: seq<string>)
    ensures OriginDecision(Some(prefix + VercelMarker + suffix), allowed) == Allow
  {
    var s := prefix + VercelMarker + suffix;
    assert s[|prefix|..|prefix| + |VercelMarker|] == VercelMarker;
    assert Strings.OccursAt(s, VercelMarker, |prefix|);
    Strings.ContainsAt(s, VercelMarker);
  }

  /** A string without a dot never includes ".vercel.app". */
  lemma NoDotNoVercel(s: string)
    requires forall i :: 0 <= i < |s| ==> s[i] != '.'
    ensures !Strings.Contains(s, VercelMarker)
  {
    if Strings.Contains(s, VercelMarker) {
      ContainsFirstChar(s, VercelMarker);
      assert false;
    }
  }

  /** An origin without a dot that is not configured is refused (the
      development server on another port, for instance): the substring
      test cannot admit it. */
  lemma DotlessUnlistedOriginRejected(origin: string, frontendUrl: Option<string>)
    requires origin != "" && origin !in AllowedOrigins(frontendUrl)
    requires forall i :: 0 <= i < |origin| ==> origin[i] != '.'
    ensures OriginDecision(Some(origin), AllowedOrigins(frontendUrl)) == Reject
  {
    NoDotNoVercel(origin);
  }
}
