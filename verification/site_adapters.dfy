/**
  The site adapters: for each streaming site, a URL test and the overrides
  its adapter class makes to the fullscreen behaviour of its base class.
  The base classes themselves are not part of this model, so whatever an
  adapter does not override is recorded as inherited and left unspecified.
*/
module SiteAdapters {
  import opened Wrappers
  import opened Text

  /** One case-sensitive test on the URL. */
  datatype Pattern = Substring(text: string) | Prefix(text: string)

  predicate Matches(p: Pattern, url: string) {
    match p
    case Substring(t) => Contains(url, t)
    case Prefix(t) => StartsWith(url, t)
  }

  /** The class an adapter extends: `WebpageAdapter` or `CommonWebpageAdapter`. */
  datatype Base = WebpageBase | CommonBase

  /** How `enterFullscreen` is overridden: not at all, by an empty body, or by
      a simulated key press with an explicit key code or the default one. */
  datatype Protocol = Inherited | NoOp | PressKey(key: Option<int>)

  /** An adapter class as data. `None` in an optional field means the class
      does not override that member. */
  datatype Adapter = Adapter(
    name: string,
    base: Base,
    patterns: seq<Pattern>,
    protocol: Protocol,
    script: Option<string>,
    fullscreenElementId: Option<string>,
    playingCheck: Option<bool>)

  /** `isAdaptedUrl`: the alternatives of the adapter's test, or-ed together. */
  predicate IsAdaptedUrl(a: Adapter, url: string) {
    exists i | 0 <= i < |a.patterns| :: Matches(a.patterns[i], url)
  }

  /** Android's `KeyEvent.KEYCODE_F`. */
  const KeycodeF: int := 34

  const TbsDebug := Adapter("TbsDebug", WebpageBase,
    [Substring("debugtbs.qq.com"), Substring("res.imtt.qq.com")],
    NoOp, Some(""), None, None)

  const Mgtv := Adapter("Mgtv", CommonBase,
    [Substring("live.mgtv.com")],
    PressKey(Some(KeycodeF)), None, None, None)

  const VoaNews := Adapter("VoaNews", CommonBase,
    [Substring("voanews.com")],
    PressKey(Some(KeycodeF)), None, None, None)

  const ChromeUrl := Adapter("ChromeUrl", WebpageBase,
    [Prefix("chrome:"), Prefix("about:")],
    NoOp, Some(""), None, None)

  const Sztv := Adapter("Sztv", CommonBase,
    [Substring("sztv.com.cn")],
    PressKey(None), None, None, None)

  const Fgtv := Adapter("Fgtv", CommonBase,
    [Substring("4gtv")],
    Inherited, None, Some("#videoPlay_html5_api"), None)

  const Yangshipin := Adapter("Yangshipin", CommonBase,
    [Substring("yangshipin.cn")],
    Inherited, None, None, Some(false))

  /** The site-specific adapters. Their registration order is not part of
      this model; `Resolve` takes the order as a parameter. */
  const Sites: seq<Adapter> := [TbsDebug, Mgtv, VoaNews, ChromeUrl, Sztv, Fgtv, Yangshipin]

  /** A test made of one substring matches exactly the URLs containing it. */
  lemma SingleSubstring(a: Adapter, sub: string, url: string)
    requires a.patterns == [Substring(sub)]
    ensures IsAdaptedUrl(a, url) <==> Contains(url, sub)
  {
    if Contains(url, sub) {
      assert Matches(a.patterns[0], url);
    }
  }

  /** A test of two alternatives matches when either does. */
  lemma TwoAlternatives(a: Adapter, p: Pattern, q: Pattern, url: string)
    requires a.patterns == [p, q]
    ensures IsAdaptedUrl(a, url) <==> Matches(p, url) || Matches(q, url)
  {
    if Matches(p, url) {
      assert Matches(a.patterns[0], url);
    }
    if Matches(q, url) {
      assert Matches(a.patterns[1], url);
    }
  }

  /** TbsDebug: either debug host anywhere in the URL; empty script; fullscreen does nothing. */
  lemma TbsDebugAdapter(url: string)
    ensures IsAdaptedUrl(TbsDebug, url) <==>
      Contains(url, "debugtbs.qq.com") || Contains(url, "res.imtt.qq.com")
    ensures TbsDebug.script == Some("") && TbsDebug.protocol == NoOp
  {
    TwoAlternatives(TbsDebug, Substring("debugtbs.qq.com"), Substring("res.imtt.qq.com"), url);
  }

  /** Mgtv: "live.mgtv.com" anywhere; fullscreen by pressing F; nothing else overridden. */
  lemma MgtvAdapter(url: string)
    ensures IsAdaptedUrl(Mgtv, url) <==> Contains(url, "live.mgtv.com")
    ensures Mgtv.protocol == PressKey(Some(KeycodeF))
    ensures Mgtv.script.None? && Mgtv.fullscreenElementId.None? && Mgtv.playingCheck.None?
  {
    SingleSubstring(Mgtv, "live.mgtv.com", url);
  }

  /** VoaNews: "voanews.com" anywhere; fullscreen by pressing F; nothing else overridden. */
  lemma VoaNewsAdapter(url: string)
    ensures IsAdaptedUrl(VoaNews, url) <==> Contains(url, "voanews.com")
    ensures VoaNews.protocol == PressKey(Some(KeycodeF))
    ensures VoaNews.script.None? && VoaNews.fullscreenElementId.None? && VoaNews.playingCheck.None?
  {
    SingleSubstring(VoaNews, "voanews.com", url);
  }

  /** ChromeUrl: browser-internal pages by prefix; empty script; fullscreen does nothing. */
  lemma ChromeUrlAdapter(url: string)
    ensures IsAdaptedUrl(ChromeUrl, url) <==> StartsWith(url, "chrome:") || StartsWith(url, "about:")
    ensures ChromeUrl.script == Some("") && ChromeUrl.protocol == NoOp
  {
    TwoAlternatives(ChromeUrl, Prefix("chrome:"), Prefix("about:"), url);
  }

  /** Sztv: "sztv.com.cn" anywhere; fullscreen by a key press with the default key. */
  lemma SztvAdapter(url: string)
    ensures IsAdaptedUrl(Sztv, url) <==> Contains(url, "sztv.com.cn")
    ensures Sztv.protocol == PressKey(None)
    ensures Sztv.script.None? && Sztv.fullscreenElementId.None? && Sztv.playingCheck.None?
  {
    SingleSubstring(Sztv, "sztv.com.cn", url);
  }

  /** Fgtv: "4gtv" anywhere; only the fullscreen element id is supplied. */
  lemma FgtvAdapter(url: string)
    ensures IsAdaptedUrl(Fgtv, url) <==> Contains(url, "4gtv")
    ensures Fgtv.fullscreenElementId == Some("#videoPlay_html5_api")
    ensures Fgtv.protocol == Inherited && Fgtv.script.None? && Fgtv.playingCheck.None?
  {
    SingleSubstring(Fgtv, "4gtv", url);
  }

  /** Yangshipin: "yangshipin.cn" anywhere; the play-state check is off. */
  lemma YangshipinAdapter(url: string)
    ensures IsAdaptedUrl(Yangshipin, url) <==> Contains(url, "yangshipin.cn")
    ensures Yangshipin.playingCheck == Some(false)
    ensures Yangshipin.protocol == Inherited && Yangshipin.script.None?
  {
    SingleSubstring(Yangshipin, "yangshipin.cn", url);
  }

  /** A substring adapter matches its text wherever it appears: host, path or query. */
  lemma SubstringAnywhere(a: Adapter, sub: string, before: string, after: string)
    requires a.patterns == [Substring(sub)]
    ensures IsAdaptedUrl(a, before + sub + after)
  {
    ContainsInfix(before, sub, after);
    SingleSubstring(a, sub, before + sub + after);
  }

  /** No lower-case ASCII letter in the string. */
  predicate NoLowercase(s: string) {
    forall i | 0 <= i < |s| :: !('a' <= s[i] <= 'z')
  }

  /** A pattern fails on every string lacking one of its characters. */
  lemma MissingCharacter(p: Pattern, url: string, k: int)
    requires 0 <= k < |p.text| && p.text[k] !in url
    ensures !Matches(p, url)
  {
    if Matches(p, url) {
      if p.Prefix? {
        StartsWithContains(url, p.text);
      }
      ContainsCharacters(url, p.text, k);
    }
  }

  /** Matching is case-sensitive: a URL written in capitals (or with no
      lower-case letters at all) matches none of the site adapters. */
  lemma UppercaseMatchesNoSite(url: string)
    requires NoLowercase(url)
    ensures forall a | a in Sites :: !IsAdaptedUrl(a, url)
  {
    forall a | a in Sites
      ensures !IsAdaptedUrl(a, url)
    {
      forall i | 0 <= i < |a.patterns|
        ensures !Matches(a.patterns[i], url)
      {
        var t := a.patterns[i].text;
        assert 'a' <= t[1] <= 'z';
        MissingCharacter(a.patterns[i], url, 1);
      }
    }
  }

  /** For instance "LIVE.MGTV.COM" is not adapted by Mgtv. */
  lemma MgtvCaseSensitive()
    ensures !IsAdaptedUrl(Mgtv, "https://LIVE.MGTV.COM/")
  {
    var url := "https://LIVE.MGTV.COM/";
    MissingCharacter(Mgtv.patterns[0], url, 0);
  }

  /** Mgtv wants the live host: the main site "www.mgtv.com" is not adapted,
      although every URL Mgtv adapts contains "mgtv.com". */
  lemma MgtvNeedsLiveHost(url: string)
    ensures IsAdaptedUrl(Mgtv, url) ==> Contains(url, "mgtv.com")
    ensures !IsAdaptedUrl(Mgtv, "https://www.mgtv.com/")
  {
    MgtvAdapter(url);
    if IsAdaptedUrl(Mgtv, url) {
      assert OccursAt("live.mgtv.com", "mgtv.com", 5);
      ContainsTransitive(url, "live.mgtv.com", "mgtv.com");
    }
    MgtvRejectsMainSite();
  }

  /** The main site lacks the "live." host prefix. */
  lemma MgtvRejectsMainSite()
    ensures !IsAdaptedUrl(Mgtv, "https://www.mgtv.com/")
  {
    MissingCharacter(Mgtv.patterns[0], "https://www.mgtv.com/", 0);
  }

  /** Sztv wants the ".cn" domain: "sztv.com" alone is not adapted. */
  lemma SztvNeedsCn()
    ensures !IsAdaptedUrl(Sztv, "http://www.sztv.com/")
  {
    MissingCharacter(Sztv.patterns[0], "http://www.sztv.com/", 10);
  }

  /** ChromeUrl tests prefixes only: "about:" later in the URL does not count. */
  lemma ChromeUrlPrefixOnly()
    ensures IsAdaptedUrl(ChromeUrl, "about:blank")
    ensures !IsAdaptedUrl(ChromeUrl, "http://x/?next=about:blank")
  {
    ChromeUrlAdapter("about:blank");
    ChromeUrlAdapter("http://x/?next=about:blank");
    assert "about:blank"[..6] == "about:";
    assert "http://x/?next=about:blank"[..6][0] == 'h';
    assert "http://x/?next=about:blank"[..7][0] == 'h';
  }

  /** The position of the first adapter whose test accepts the URL, if any. */
  function Resolve(adapters: seq<Adapter>, url: string): (r: Option<nat>)
    ensures r.Some? ==>
      && r.value < |adapters|
      && IsAdaptedUrl(adapters[r.value], url)
      && forall j | 0 <= j < r.value :: !IsAdaptedUrl(adapters[j], url)
    ensures r.None? <==> forall j | 0 <= j < |adapters| :: !IsAdaptedUrl(adapters[j], url)
    decreases |adapters|
  {
    if |adapters| == 0 then None
    else if IsAdaptedUrl(adapters[0], url) then Some(0)
    else
      match Resolve(adapters[1..], url)
      case None => None
      case Some(i) => Some(i + 1)
  }

  /** The adapter chosen for a URL: the first site adapter that accepts it,
      or the generic fallback when none does. */
  function Dispatch(sites: seq<Adapter>, fallback: Adapter, url: string): (a: Adapter)
    ensures (forall j | 0 <= j < |sites| :: !IsAdaptedUrl(sites[j], url)) ==> a == fallback
    ensures (exists j | 0 <= j < |sites| :: IsAdaptedUrl(sites[j], url)) ==>
      exists i | 0 <= i < |sites| :: a == sites[i] && IsAdaptedUrl(sites[i], url) &&
        forall j | 0 <= j < i :: !IsAdaptedUrl(sites[j], url)
  {
    match Resolve(sites, url)
    case None => fallback
    case Some(i) => sites[i]
  }

  /** Of two adapters that both accept a URL, the earlier one wins (or one
      before it). */
  lemma ResolveOrder(adapters: seq<Adapter>, i: nat, j: nat, url: string)
    requires i < j < |adapters|
    requires IsAdaptedUrl(adapters[i], url) && IsAdaptedUrl(adapters[j], url)
    ensures Resolve(adapters, url).Some? && Resolve(adapters, url).value <= i
  {
  }

  /** With a catch-all adapter registered last, resolution never fails. */
  lemma CatchAllLast(adapters: seq<Adapter>, url: string)
    requires |adapters| > 0 && IsAdaptedUrl(adapters[|adapters| - 1], url)
    ensures Resolve(adapters, url).Some?
  {
  }

  /** The site tests overlap, so their order matters: this URL is adapted
      by both Mgtv and VoaNews, and whichever is registered first wins. */
  lemma OverlapNeedsOrder()
    ensures var url := "https://live.mgtv.com/?from=voanews.com";
      && Resolve([Mgtv, VoaNews], url) == Some(0)
      && Resolve([VoaNews, Mgtv], url) == Some(0)
      && Dispatch([Mgtv, VoaNews], Fgtv, url) == Mgtv
      && Dispatch([VoaNews, Mgtv], Fgtv, url) == VoaNews
  {
    var url := "https://live.mgtv.com/?from=voanews.com";
    assert url == "https://" + "live.mgtv.com" + "/?from=voanews.com";
    SubstringAnywhere(Mgtv, "live.mgtv.com", "https://", "/?from=voanews.com");
    assert url == "https://live.mgtv.com/?from=" + "voanews.com" + "";
    SubstringAnywhere(VoaNews, "voanews.com", "https://live.mgtv.com/?from=", "");
  }
}
