/**
 * The settings card of the developer console (`frontend/src/components/ConfigCard.tsx`): it edits a
 * copy of the saved settings and, on save, writes them back with the base URL normalised.
 */
module ConfigCard {
  import opened Wrappers
  import Text
  import opened Json
  import DevConfig

  /** `normalizeBaseUrl(s)`: trimmed, every white space removed, and every trailing "/" dropped. */
  function NormalizedBase(s: Option<string>): (v: string)
    ensures forall i :: 0 <= i < |v| ==> !Text.IsSpace(v[i])
    ensures v != [] ==> v[|v| - 1] != '/'
    ensures v == Text.RStripChar(Text.RemoveSpaces(Text.Strip(s.GetOr(""))), '/')
  {
    var t := Text.RemoveSpaces(Text.Strip(s.GetOr("")));
    var v := if t == "" then "" else Text.RStripChar(t, '/');
    assert forall i :: 0 <= i < |v| ==> v[i] == t[i];
    v
  }

  /** The function step by step, as the source rebinds `v`. */
  method NormalizeBaseUrl(s: Option<string>) returns (v: string)
    ensures v == NormalizedBase(s)
  {
    v := Text.Strip(s.GetOr(""));
    v := Text.RemoveSpaces(v);
    if v == "" {
      return "";
    }
    v := Text.RStripChar(v, '/');
  }

  /** Normalising a normalised base URL changes nothing. */
  lemma NormalizeIdempotent(s: Option<string>)
    ensures NormalizedBase(Some(NormalizedBase(s))) == NormalizedBase(s)
  {
    var r := NormalizedBase(s);
    Text.StripOfTrimmed(r);
    Text.RemoveSpacesOfSpaceless(r);
  }

  /** Padding around the base URL, spaces inside it and trailing slashes make no difference. */
  lemma NormalizeIgnoresPadding(u: string)
    requires u != [] && forall i :: 0 <= i < |u| ==> !Text.IsSpace(u[i])
    requires u[|u| - 1] != '/'
    ensures NormalizedBase(Some(" " + u + "//")) == u
  {
    var v := u + "/";
    var w := v + "/";
    assert u + "//" == w;
    assert w[0] == u[0] && w[|w| - 1] == '/';
    Text.StripPadded(" ", w, "");
    assert " " + u + "//" == " " + w + "";
    forall i | 0 <= i < |w| ensures !Text.IsSpace(w[i]) {
      if i < |u| {
        assert w[i] == u[i];
      }
    }
    Text.RemoveSpacesOfSpaceless(w);
    assert w[..|w| - 1] == v;
    assert v[..|v| - 1] == u;
    assert Text.RStripChar(v, '/') == u;
  }

  /** `canSave`: the base URL has something other than white space. */
  predicate CanSave(baseUrl: string) {
    Text.Strip(baseUrl) != ""
  }

  lemma CanSaveIffNotBlank(baseUrl: string)
    ensures CanSave(baseUrl) <==> !Text.IsBlank(baseUrl)
  {
    Text.StripEmptyIffBlank(baseUrl);
  }

  /** Save is enabled for a base URL of slashes only, and what it saves is the empty base URL. */
  lemma SlashesOnlySaveEmpty(u: string)
    requires u != [] && forall i :: 0 <= i < |u| ==> u[i] == '/'
    ensures CanSave(u) && NormalizedBase(Some(u)) == ""
  {
    Text.StripOfTrimmed(u);
    Text.RemoveSpacesOfSpaceless(u);
    AllSlashesStripped(u);
  }

  lemma {:induction false} AllSlashesStripped(u: string)
    requires forall i :: 0 <= i < |u| ==> u[i] == '/'
    ensures Text.RStripChar(u, '/') == ""
  {
    if u != [] {
      AllSlashesStripped(u[..|u| - 1]);
    }
  }

  /** The settings as `saveCfg` receives them. */
  function PartialOf(c: DevConfig.DevCfg): (p: DevConfig.PartialCfg)
    ensures p.baseUrl == Some(c.baseUrl)
    ensures p.driverKey == c.driverKey && p.adminKey == c.adminKey && p.driverName == c.driverName && p.driverId == c.driverId
  {
    DevConfig.PartialCfg(Some(c.baseUrl), c.driverKey, c.adminKey, c.driverName, c.driverId)
  }

  /** The card's state: the settings being edited and whether they were just saved. */
  class Card {
    var cfg: DevConfig.DevCfg
    var saved: bool

    /** The card loads the saved settings when it appears. */
    constructor(store: DevConfig.DevStore, numText: real -> string)
      ensures cfg == DevConfig.LoadCfg(store.items, numText) && !saved
    {
      cfg := DevConfig.LoadCfg(store.items, numText);
      saved := false;
    }

    /** Typing into the base URL field. */
    method EditBaseUrl(s: string)
      modifies this
      ensures cfg == old(cfg).(baseUrl := s) && saved == old(saved)
    {
      cfg := cfg.(baseUrl := s);
    }

    /** Typing into the driver key field. */
    method EditDriverKey(s: string)
      modifies this
      ensures cfg == old(cfg).(driverKey := Some(s)) && saved == old(saved)
    {
      cfg := cfg.(driverKey := Some(s));
    }

    /** Typing into the admin key field. */
    method EditAdminKey(s: string)
      modifies this
      ensures cfg == old(cfg).(adminKey := Some(s)) && saved == old(saved)
    {
      cfg := cfg.(adminKey := Some(s));
    }

    /** Typing into the "Driver Id" field, which edits `driverId`. */
    method EditDriverId(s: string)
      modifies this
      ensures cfg == old(cfg).(driverId := Some(s)) && saved == old(saved)
    {
      cfg := cfg.(driverId := Some(s));
    }

    /** `onSave`: the base URL is normalised, the settings are merged into storage and kept by the card. */
    method OnSave(store: DevConfig.DevStore, numText: real -> string)
      modifies this, store
      ensures cfg == old(cfg).(baseUrl := NormalizedBase(Some(old(cfg).baseUrl))) && saved
      ensures store.items == old(store.items)[DevConfig.CfgKey :=
        DevConfig.Doc(DevConfig.CfgJson(DevConfig.Merge(PartialOf(cfg), DevConfig.LoadCfg(old(store.items), numText))))]
    {
      var b := NormalizeBaseUrl(Some(cfg.baseUrl));
      var next := cfg.(baseUrl := b);
      store.SaveCfg(PartialOf(next), numText);
      cfg := next;
      saved := true;
    }
  }

  /** What the card saves has exactly its normalised base URL and, where the card has them, its keys and name. */
  lemma SavedAsEdited(c: DevConfig.DevCfg, cur: DevConfig.DevCfg)
    requires c.baseUrl == NormalizedBase(Some(c.baseUrl))
    ensures var m := DevConfig.Merge(PartialOf(c), cur);
      m.baseUrl == c.baseUrl &&
      m.driverKey == (if c.driverKey.Some? then c.driverKey else cur.driverKey) &&
      m.adminKey == (if c.adminKey.Some? then c.adminKey else cur.adminKey) &&
      m.driverName == (if c.driverName.Some? then c.driverName else cur.driverName)
  {
    var b := c.baseUrl;
    assert Text.RStripChar(b, '/') == b by {
      if b != [] {
        assert b[|b| - 1] != '/';
      }
    }
  }

  /** The "Driver Id" field is never persisted: after a successful load, saving with or without an id typed in leaves the same settings to load. */
  lemma TypedDriverIdLost(items: DevConfig.Storage, c: DevConfig.DevCfg, id: string, numText: real -> string)
    requires DevConfig.LoadCfg(items, numText).driverKey.Some?
    ensures var cur := DevConfig.LoadCfg(items, numText);
      var withId := DevConfig.Merge(PartialOf(c.(driverId := Some(id))), cur);
      DevConfig.LoadCfg(items[DevConfig.CfgKey := DevConfig.Doc(DevConfig.CfgJson(withId))], numText)
        == DevConfig.Merge(PartialOf(c.(driverId := None)), cur)
  {
    var cur := DevConfig.LoadCfg(items, numText);
    DevConfig.SaveThenLoad(items, PartialOf(c.(driverId := Some(id))), numText);
    assert DevConfig.Merge(PartialOf(c.(driverId := Some(id))), cur) == DevConfig.Merge(PartialOf(c.(driverId := None)), cur);
  }
}
