/**
 * site.config.ts: the site's base URL and the ad settings, as read from
 * environment variables. A variable that is not set is written "".
 */
module SiteConfig {

  const PlaceholderUrl: string := "https://example.com"

  /** `blog.postsPerPage` and `tools.postsPerPage`. */
  const PostsPerPage: int := 12

  /**
   * `getSiteUrl`: `NEXT_PUBLIC_SITE_URL` unless it is empty or the
   * placeholder, then `https://` and `VERCEL_URL` when that is set, and
   * the placeholder otherwise.
   */
  function GetSiteUrl(siteUrl: string, vercelUrl: string): (r: string)
    ensures r != ""
    ensures siteUrl != "" && siteUrl != PlaceholderUrl ==> r == siteUrl
    ensures (siteUrl == "" || siteUrl == PlaceholderUrl) && vercelUrl != "" ==> r == "https://" + vercelUrl
    ensures (siteUrl == "" || siteUrl == PlaceholderUrl) && vercelUrl == "" ==> r == PlaceholderUrl
  {
    if siteUrl != "" && siteUrl != PlaceholderUrl then siteUrl
    else if vercelUrl != "" then "https://" + vercelUrl
    else if siteUrl != "" then siteUrl
    else PlaceholderUrl
  }

  /**
   * The site URL is the placeholder exactly when the site URL variable
   * supplies no other one and `VERCEL_URL` is unset or itself names the
   * placeholder's host.
   */
  lemma PlaceholderOnlyAsLastResort(siteUrl: string, vercelUrl: string)
    ensures GetSiteUrl(siteUrl, vercelUrl) == PlaceholderUrl <==>
              (siteUrl == "" || siteUrl == PlaceholderUrl) && (vercelUrl == "" || vercelUrl == "example.com")
  {
    var prefixed := "https://" + vercelUrl;
    assert prefixed[8..] == vercelUrl;
    assert PlaceholderUrl[8..] == "example.com";
  }

  datatype AdSense = AdSense(clientId: string, enabled: bool)

  /** `adsense`: the client id, or "", and enabled exactly when there is one. */
  function AdSenseOf(clientIdEnv: string): (a: AdSense)
    ensures a.enabled <==> a.clientId != ""
    ensures a.clientId == clientIdEnv
  {
    AdSense(clientIdEnv, clientIdEnv != "")
  }
}
