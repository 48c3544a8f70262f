/**
 * The admin-only settings summary of `debug_settings.py`: API keys are shown masked, and the CORS
 * flags are the ones a browser will honour (credentials are never allowed with a wildcard origin).
 * Settings the object may lack (`getattr(settings, name, default)`) are optional parameters.
 */
module DebugSettings {
  import opened Wrappers

  const Ellipsis: char := '…'

  /** `_mask(s)`: empty for a missing key, two characters at each end of a long one, stars otherwise. */
  function Mask(s: Option<string>): (r: string)
    ensures s.None? || s.value == "" ==> r == ""
    ensures s.Some? && |s.value| > 6 ==> r == s.value[..2] + [Ellipsis] + s.value[|s.value| - 2..]
    ensures s.Some? && 1 <= |s.value| <= 6 ==> r == "***"
  {
    if s.None? || s.value == "" then ""
    else if |s.value| > 6 then s.value[..2] + [Ellipsis] + s.value[|s.value| - 2..]
    else "***"
  }

  /** The mask is at most five characters and is empty exactly for a missing key. */
  lemma MaskShort(s: Option<string>)
    ensures |Mask(s)| <= 5
    ensures Mask(s) == "" <==> s.None? || s.value == ""
  {
  }

  /** A key longer than six characters is never shown in full: its mask is shorter than it. */
  lemma MaskHidesLongKey(s: string)
    requires |s| > 6
    ensures Mask(Some(s)) != s && |Mask(Some(s))| < |s|
  {
  }

  /** The mask tells nothing about the middle of a long key: keys with the same two first and last characters mask alike. */
  lemma MaskIgnoresMiddle(a: string, b: string)
    requires |a| > 6 && |b| > 6
    requires a[..2] == b[..2] && a[|a| - 2..] == b[|b| - 2..]
    ensures Mask(Some(a)) == Mask(Some(b))
  {
  }

  /** The CORS part of the summary. */
  datatype CorsInfo = CorsInfo(originsList: seq<string>, wildcard: bool, allowCredentials: bool, allowOrigins: seq<string>)

  /** The wildcard flag: the list is `["*"]` or holds `"*"`. */
  predicate Wildcard(origins: seq<string>) {
    origins == ["*"] || "*" in origins
  }

  /** The CORS settings as they take effect, from the configured origins and the credentials setting (false when unset). */
  function Cors(origins: seq<string>, allowCredentialsSetting: Option<bool>): (c: CorsInfo)
    ensures c.originsList == origins
    ensures c.wildcard <==> "*" in origins
    ensures c.allowCredentials <==> allowCredentialsSetting == Some(true) && "*" !in origins
    ensures c.allowOrigins == (if "*" in origins then ["*"] else origins)
  {
    var wildcard := Wildcard(origins);
    var creds := (allowCredentialsSetting.Some? && allowCredentialsSetting.value) && !wildcard;
    CorsInfo(origins, wildcard, creds, if wildcard then ["*"] else origins)
  }

  /** Credentials and a wildcard origin never go together, which is what browsers require. */
  lemma NoCredentialsWithWildcard(origins: seq<string>, allowCredentialsSetting: Option<bool>)
    ensures var c := Cors(origins, allowCredentialsSetting);
      c.allowCredentials ==> "*" !in c.allowOrigins && c.allowOrigins == origins
  {
  }

  /** The keys part of the summary. */
  datatype KeysInfo = KeysInfo(adminMasked: string, driverMasked: string, adminSet: bool, driverSet: bool)

  function Keys(adminKey: Option<string>, driverKey: Option<string>): (k: KeysInfo)
    ensures k.adminSet <==> adminKey.Some? && adminKey.value != ""
    ensures k.driverSet <==> driverKey.Some? && driverKey.value != ""
    ensures k.adminMasked == Mask(adminKey) && k.driverMasked == Mask(driverKey)
  {
    KeysInfo(Mask(adminKey), Mask(driverKey), adminKey.Some? && adminKey.value != "", driverKey.Some? && driverKey.value != "")
  }

  /** A key is reported as set exactly when its mask is not empty. */
  lemma SetIffMasked(adminKey: Option<string>, driverKey: Option<string>)
    ensures var k := Keys(adminKey, driverKey);
      (k.adminSet <==> k.adminMasked != "") && (k.driverSet <==> k.driverMasked != "")
  {
    MaskShort(adminKey);
    MaskShort(driverKey);
  }
}
