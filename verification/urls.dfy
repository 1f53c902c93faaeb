/** Construction of the per-device endpoint URLs from the configured base
    URL and the device serial. */
module Urls {

  const API_DEVICES: string := "api/devices/"
  const DISPENSERS_DEVICES: string := "dispensers/devices/"
  const CONFIG_LEAF: string := "/config/"
  const EVENTS_LEAF: string := "/events/"
  const PAIR_LEAF: string := "/pair/"
  const HTTPS_SCHEME: string := "https://"

  predicate EndsWithSlash(s: string) {
    |s| > 0 && s[|s| - 1] == '/'
  }

  /** `u` is `base`, then a slash exactly when `base` does not already end
      with one, then `path`. */
  predicate UrlShape(u: string, base: string, path: string) {
    && |base| <= |u|
    && u[..|base|] == base
    && (EndsWithSlash(base) ==> u[|base|..] == path)
    && (!EndsWithSlash(base) ==> |base| < |u| && u[|base|] == '/' && u[|base| + 1..] == path)
  }

  /** The base URL, a slash unless the base already ends with one, then the
      path prefix, the serial and the endpoint leaf. */
  function DeviceUrl(base: string, prefix: string, serial: string, leaf: string): (r: string)
    ensures UrlShape(r, base, prefix + serial + leaf)
  {
    var joined := if EndsWithSlash(base) then base else base + "/";
    joined + prefix + serial + leaf
  }

  /** The base URL starts with the eight characters of the https scheme
      (a byte-wise comparison of at most eight characters). */
  function IsHttpsBaseUrl(base: string): (r: bool)
    ensures r <==> |base| >= |HTTPS_SCHEME| && forall i :: 0 <= i < |HTTPS_SCHEME| ==> base[i] == HTTPS_SCHEME[i]
  {
    |base| >= |HTTPS_SCHEME| && base[..|HTTPS_SCHEME|] == HTTPS_SCHEME
  }

  /** The shape fixes the URL: there is one string of a given shape. */
  lemma ShapeDeterminesUrl(u1: string, u2: string, base: string, path: string)
    requires UrlShape(u1, base, path) && UrlShape(u2, base, path)
    ensures u1 == u2
  {
  }

  function ConfigUrl(base: string, serial: string): (r: string)
    ensures UrlShape(r, base, API_DEVICES + serial + CONFIG_LEAF)
  {
    DeviceUrl(base, API_DEVICES, serial, CONFIG_LEAF)
  }

  function EventsUrl(base: string, serial: string): (r: string)
    ensures UrlShape(r, base, API_DEVICES + serial + EVENTS_LEAF)
  {
    DeviceUrl(base, API_DEVICES, serial, EVENTS_LEAF)
  }

  function PairUrl(base: string, serial: string): (r: string)
    ensures UrlShape(r, base, API_DEVICES + serial + PAIR_LEAF)
  {
    DeviceUrl(base, API_DEVICES, serial, PAIR_LEAF)
  }

  /** The earlier static-secret firmware uses a different path prefix. */
  function LegacyConfigUrl(base: string, serial: string): (r: string)
    ensures UrlShape(r, base, DISPENSERS_DEVICES + serial + CONFIG_LEAF)
  {
    DeviceUrl(base, DISPENSERS_DEVICES, serial, CONFIG_LEAF)
  }

  function LegacyEventsUrl(base: string, serial: string): (r: string)
    ensures UrlShape(r, base, DISPENSERS_DEVICES + serial + EVENTS_LEAF)
  {
    DeviceUrl(base, DISPENSERS_DEVICES, serial, EVENTS_LEAF)
  }

  /** The client picks the TLS transport from the base URL alone; for every
      endpoint path that does not start with a slash, that is the same as
      asking whether the request URL itself is an https URL. */
  lemma {:induction false} TlsChoiceMatchesUrl(base: string, prefix: string, serial: string, leaf: string)
    requires prefix != [] && prefix[0] != '/'
    ensures IsHttpsBaseUrl(DeviceUrl(base, prefix, serial, leaf)) <==> IsHttpsBaseUrl(base)
  {
    var u := DeviceUrl(base, prefix, serial, leaf);
    var n := |HTTPS_SCHEME|;
    if IsHttpsBaseUrl(base) {
      assert u[..n] == u[..|base|][..n];
    } else if |base| >= n {
      assert u[..n] == u[..|base|][..n] == base[..n];
    } else if |u| >= n {
      // A base shorter than the scheme: find the first character where the
      // URL departs from the scheme.
      var k := |base|;
      var d: nat;
      if exists i :: 0 <= i < k && base[i] != HTTPS_SCHEME[i] {
        d :| 0 <= d < k && base[d] != HTTPS_SCHEME[d];
        assert u[d] == u[..k][d] == base[d];
      } else if EndsWithSlash(base) {
        assert k == 7;
        d := 7;
        assert u[k..][0] == prefix[0];
      } else if k == 6 {
        d := 7;
        assert u[k + 1..][0] == prefix[0];
      } else {
        d := k;
      }
      assert u[..n][d] != HTTPS_SCHEME[d];
    }
  }

  /** A trailing slash on the base URL makes no difference. */
  lemma TrailingSlashIrrelevant(base: string, prefix: string, serial: string, leaf: string)
    requires !EndsWithSlash(base)
    ensures DeviceUrl(base + "/", prefix, serial, leaf) == DeviceUrl(base, prefix, serial, leaf)
  {
  }

  /** Two devices with different serials never share an endpoint. */
  lemma {:induction false} SerialDeterminesUrl(base: string, prefix: string, s1: string, s2: string, leaf: string)
    requires DeviceUrl(base, prefix, s1, leaf) == DeviceUrl(base, prefix, s2, leaf)
    ensures s1 == s2
  {
    var u := DeviceUrl(base, prefix, s1, leaf);
    var k := if EndsWithSlash(base) then |base| else |base| + 1;
    assert u[k..] == prefix + s1 + leaf;
    assert u[k..] == prefix + s2 + leaf;
    assert |s1| == |s2|;
    assert s1 == (prefix + s1 + leaf)[|prefix|..|prefix| + |s1|];
    assert s2 == (prefix + s2 + leaf)[|prefix|..|prefix| + |s2|];
  }
}
