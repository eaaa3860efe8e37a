/**
 * Project-name derivation of config.py: the task directory is named after
 * the target site's host with a leading `www.` and then a leading `shop.`
 * removed, cut at the first dot.
 */
module Config {
  import opened Wrappers
  import opened Text

  const DefaultTask: string := "default_task"

  /** `s[len(p):] if s.startswith(p) else s` */
  function StripPrefix(s: string, p: string): (r: string)
    ensures p <= s ==> s == p + r
    ensures !(p <= s) ==> r == s
  {
    if p <= s then s[|p|..] else s
  }

  /**
   * The host with at most one leading `www.` and then at most one leading
   * `shop.` removed, in that order.
   */
  function StripHostPrefixes(host: string): (r: string)
    ensures "www.shop." <= host ==> r == host[9..]
    ensures "www." <= host && !("www.shop." <= host) ==> r == host[4..]
    ensures !("www." <= host) && "shop." <= host ==> r == host[5..]
    ensures !("www." <= host) && !("shop." <= host) ==> r == host
    ensures |r| <= |host| && r == host[|host| - |r|..]
  {
    var afterWww := StripPrefix(host, "www.");
    assert "www." <= host ==> ("www.shop." <= host <==> "shop." <= afterWww) by {
      if "www." <= host {
        assert host == "www." + afterWww;
        if "shop." <= afterWww {
          assert host[..9] == "www." + afterWww[..5];
        }
        if "www.shop." <= host {
          assert afterWww[..5] == host[4..9];
        }
      }
    }
    StripPrefix(afterWww, "shop.")
  }

  /**
   * `get_project_name(url)` with `netloc` standing for `urlparse(url).netloc`;
   * `None` stands for `urlparse` raising, which the function turns into the
   * default name.
   */
  function ProjectName(netloc: Option<string>): (r: string)
    ensures r != ""
    ensures '.' !in r
    ensures netloc.None? ==> r == DefaultTask
    ensures r != DefaultTask ==> netloc.Some? && Contains(netloc.value, r)
    ensures netloc.Some? ==>
      var rest := StripHostPrefixes(netloc.value);
      var first := Split(rest, '.')[0];
      && first <= rest
      && (|first| < |rest| ==> rest[|first|] == '.')
      && r == (if first == "" then DefaultTask else first)
  {
    match netloc
    case None => DefaultTask
    case Some(host) =>
      var first := Split(StripHostPrefixes(host), '.')[0];
      FirstLabelInHost(host);
      if first == "" then DefaultTask else first
  }

  /** The first label of the stripped host occurs in the host. */
  lemma FirstLabelInHost(host: string)
    ensures var rest := StripHostPrefixes(host);
            var first := Split(rest, '.')[0];
            && first <= rest
            && (|first| < |rest| ==> rest[|first|] == '.')
            && Contains(host, first)
  {
    var rest := StripHostPrefixes(host);
    FirstLabelInSuffix(host, rest, |host| - |rest|);
  }

  /** The first label of a suffix of `host` occurs in `host`. */
  lemma FirstLabelInSuffix(host: string, rest: string, off: nat)
    requires off <= |host| && rest == host[off..]
    ensures var first := Split(rest, '.')[0];
            && first <= rest
            && (|first| < |rest| ==> rest[|first|] == '.')
            && Contains(host, first)
  {
    SplitFirst(rest, '.');
    PrefixOfSuffix(host, off, Split(rest, '.')[0]);
  }

  lemma PrefixOfSuffix(host: string, off: nat, first: string)
    requires off <= |host| && first <= host[off..]
    ensures Contains(host, first)
  {
    assert first == host[off..off + |first|];
    ContainsSlice(host, off, off + |first|);
  }

  /** A repeated `www.` is stripped only once. */
  lemma WwwStrippedOnce()
    ensures ProjectName(Some("www.www.example.com")) == "www"
  {
    var host := "www.www.example.com";
    assert host[4] != "www.shop."[4];
    assert "www." <= host && !("www.shop." <= host);
    assert host[4..] == "www" + "." + "example.com";
    SplitCons("www", '.', "example.com");
  }

  /** `shop.` is only looked for after `www.`, so `shop.www.` leaves the `www`. */
  lemma ShopBeforeWwwKept()
    ensures ProjectName(Some("shop.www.example.com")) == "www"
  {
    var host := "shop.www.example.com";
    assert host[0] != "www."[0];
    assert !("www." <= host) && "shop." <= host;
    assert host[5..] == "www" + "." + "example.com";
    SplitCons("www", '.', "example.com");
  }
}
