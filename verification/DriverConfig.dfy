/** The driver's configuration file: `applyClusterCSIDriverChange`. */
module DriverConfig {
  import opened Platform
  import opened Ordering
  import opened Templates
  import opened Credentials
  import opened PlatformSpecConversion
  import Topology

  // ---------- the two shipped templates ----------

  const AFTER_VCENTER: string := "\"]\ninsecure-flag = true\ndatacenters = "
  const AFTER_CLUSTER_ID: string := "\"\n\n# Populate VCenters (multi) after here\n"

  const VCENTER_TEMPLATE: seq<Segment> := [
    Text("[VirtualCenter \""), Hole("VCENTER"),
    Text(AFTER_VCENTER), Hole("DATACENTERS"),
    Text("\npassword = \""), Hole("PASSWORD"),
    Text("\"\nuser = \""), Hole("USER"), Text("\"")]

  const CONFIG_BODY: seq<Segment> := [
    Text("\n\n[Global]\ncluster-id = \""), Hole("CLUSTER_ID"),
    Text(AFTER_CLUSTER_ID), Hole("VCENTERS"), Text("\n\n")]

  const COMMENT_START: string := "# Labels with topology values "
  const COMMENT_END: string := "are added dynamically via operator"

  const CONFIG_TEMPLATE: seq<Segment> := [Text(COMMENT_START)] + ([Text(COMMENT_END)] + CONFIG_BODY)

  /** Prefixing a hole and the text behind it keeps a template well formed. */
  lemma HoleThenText(n: string, x: string, t: seq<Segment>)
    requires IsName(n) && x != "" && Guarded(x) && '$' !in x && WellFormed(t)
    ensures WellFormed([Hole(n), Text(x)] + t)
  {
    var r := [Hole(n), Text(x)] + t;
    forall k | 0 <= k < |r| ensures SegmentFits(r, k) {
      if k >= 2 {
        assert SegmentFits(t, k - 2);
        assert r[k] == t[k - 2] && (k + 1 < |r| ==> r[k + 1] == t[k - 1]);
      }
    }
  }

  lemma TextFirst(x: string, t: seq<Segment>)
    requires '$' !in x && WellFormed(t)
    ensures WellFormed([Text(x)] + t)
  {
    var r := [Text(x)] + t;
    forall k | 0 <= k < |r| ensures SegmentFits(r, k) {
      if k >= 1 {
        assert SegmentFits(t, k - 1);
        assert r[k] == t[k - 1] && (k + 1 < |r| ==> r[k + 1] == t[k]);
      }
    }
  }

  lemma AfterVCenterIsPlain()
    ensures '$' !in AFTER_VCENTER && Guarded(AFTER_VCENTER) && AFTER_VCENTER != ""
  {}

  lemma AfterClusterIdIsPlain()
    ensures '$' !in AFTER_CLUSTER_ID && Guarded(AFTER_CLUSTER_ID) && AFTER_CLUSTER_ID != ""
  {}

  lemma VCenterTemplateFits()
    ensures WellFormed(VCENTER_TEMPLATE)
  {
    AfterVCenterIsPlain();
    PlaceholdersAreNames();
    var t0: seq<Segment> := [];
    HoleThenText("USER", "\"", t0);
    var t1 := [Hole("USER"), Text("\"")] + t0;
    HoleThenText("PASSWORD", "\"\nuser = \"", t1);
    var t2 := [Hole("PASSWORD"), Text("\"\nuser = \"")] + t1;
    HoleThenText("DATACENTERS", "\npassword = \"", t2);
    var t3 := [Hole("DATACENTERS"), Text("\npassword = \"")] + t2;
    HoleThenText("VCENTER", AFTER_VCENTER, t3);
    var t4 := [Hole("VCENTER"), Text(AFTER_VCENTER)] + t3;
    TextFirst("[VirtualCenter \"", t4);
    assert VCENTER_TEMPLATE == [Text("[VirtualCenter \"")] + t4;
  }

  lemma ConfigBodyFits()
    ensures WellFormed(CONFIG_BODY)
  {
    AfterClusterIdIsPlain();
    PlaceholdersAreNames();
    var t0: seq<Segment> := [];
    HoleThenText("VCENTERS", "\n\n", t0);
    var t1 := [Hole("VCENTERS"), Text("\n\n")] + t0;
    HoleThenText("CLUSTER_ID", AFTER_CLUSTER_ID, t1);
    var t2 := [Hole("CLUSTER_ID"), Text(AFTER_CLUSTER_ID)] + t1;
    TextFirst("\n\n[Global]\ncluster-id = \"", t2);
    assert CONFIG_BODY == [Text("\n\n[Global]\ncluster-id = \"")] + t2;
  }

  lemma CommentIsPlain()
    ensures '$' !in COMMENT_START && '$' !in COMMENT_END
  {}

  lemma ConfigTemplateFits()
    ensures WellFormed(CONFIG_TEMPLATE)
  {
    ConfigBodyFits();
    CommentIsPlain();
    TextFirst(COMMENT_END, CONFIG_BODY);
    TextFirst(COMMENT_START, [Text(COMMENT_END)] + CONFIG_BODY);
  }

  // ---------- what the file should be ----------

  /** `secret.Data[key]` of a missing key is empty. */
  function Lookup(secret: map<string, string>, key: string): string {
    if key in secret then secret[key] else ""
  }

  function VCenterValues(vc: VCenterConfig, secret: map<string, string>): map<string, string> {
    map["VCENTER" := vc.vCenterIP,
        "DATACENTERS" := vc.datacenters,
        "PASSWORD" := EscapeQuotesAndBackslashes(Lookup(secret, vc.vCenterIP + ".password")),
        "USER" := EscapeBackslashInUsername(Lookup(secret, vc.vCenterIP + ".username"))]
  }

  function MigrationLine(single: bool, url: string): string {
    if single then "\nmigration-datastore-url = \"" + url + "\"" else ""
  }

  /** The sections of the vCenters `keys`, in that order, each filled simultaneously. */
  function Sections(m: map<string, VCenterConfig>, secret: map<string, string>, url: string, keys: seq<string>): string
    requires forall k :: k in keys ==> k in m
  {
    if keys == [] then ""
    else Sections(m, secret, url, keys[..|keys| - 1])
         + ("\n" + (Render(VCENTER_TEMPLATE, VCenterValues(m[keys[|keys| - 1]], secret)) + MigrationLine(|m| < 2, url)))
  }

  function OptionLines(options: seq<(string, string)>): string {
    if options == [] then ""
    else OptionLines(options[..|options| - 1])
         + "\n" + options[|options| - 1].0 + " = " + options[|options| - 1].1
  }

  function Trailer(categories: seq<string>, options: seq<(string, string)>): string {
    (if |categories| > 0 then "\n[Labels]\ntopology-categories = \"" + Joined(categories) + "\"" else "")
    + ((if |options| > 0 then "\n[Snapshot]" + OptionLines(options) else "") + "\n")
  }

  const PLACEHOLDERS := {"VCENTER", "DATACENTERS", "PASSWORD", "USER", "CLUSTER_ID", "VCENTERS"}

  ghost predicate Mentions(value: string) { exists n :: n in PLACEHOLDERS && Contains(value, Pattern(n)) }

  /** No value that goes into the file mentions any placeholder. */
  ghost predicate PlainInputs(m: map<string, VCenterConfig>, secret: map<string, string>,
                              infraName: string, url: string) {
    && !Mentions(infraName) && !Mentions(url)
    && forall k, n :: k in m && n in VCenterValues(m[k], secret) ==> !Mentions(VCenterValues(m[k], secret)[n])
  }

  lemma PlaceholdersAreNames()
    ensures forall n :: n in PLACEHOLDERS ==> IsName(n)
  {
    assert IsName("VCENTER") && IsName("DATACENTERS") && IsName("PASSWORD") && IsName("USER");
    assert IsName("CLUSTER_ID") && IsName("VCENTERS");
  }

  // ---------- a password that mentions a placeholder ----------

  /**
   A section of the shipped template in which only the password mentions a placeholder, that of the user:
   two iteration orders give two different sections.
   */
  lemma PasswordShowsOrder(vc: VCenterConfig, secret: map<string, string>)
    returns (right: seq<string>, wrong: seq<string>)
    requires var password := Lookup(secret, vc.vCenterIP + ".password");
             var user := Lookup(secret, vc.vCenterIP + ".username");
             && Contains(password, Pattern("USER")) && (forall i :: 0 <= i < |password| ==> !Special(password[i]))
             && !Mentions(EscapeBackslashInUsername(user)) && !Mentions(vc.vCenterIP) && !Mentions(vc.datacenters)
    ensures var values := VCenterValues(vc, secret);
            && IsOrder(right, values) && IsOrder(wrong, values)
            && var text := Render(VCENTER_TEMPLATE, map[]);
            && ReplaceInOrder(text, values, right) == Render(VCENTER_TEMPLATE, values)
            && ReplaceInOrder(text, values, wrong) != Render(VCENTER_TEMPLATE, values)
  {
    var values := VCenterValues(vc, secret);
    VCenterTemplateFits();
    PlaceholdersAreNames();
    NothingToEscape(Lookup(secret, vc.vCenterIP + ".password"));
    assert forall n :: n in values ==> n in PLACEHOLDERS;
    assert values["USER"] != Pattern("USER") by {
      assert OccursAt(Pattern("USER"), Pattern("USER"), 0);
      assert "USER" in PLACEHOLDERS;
    }
    right, wrong := OrderShows(VCENTER_TEMPLATE, values, "PASSWORD", 5, "USER");
  }

  // ---------- sections mention no placeholder ----------

  lemma MigrationLineIsClean(single: bool, url: string, n: string)
    requires IsName(n) && !Contains(url, Pattern(n))
    ensures !Contains(MigrationLine(single, url), Pattern(n)) && Guarded(MigrationLine(single, url))
  {
    NoDollarNoPattern("", n);
    var head := "\nmigration-datastore-url = \"";
    NoDollarNoPattern(head, n);
    NoDollarNoPattern("\"", n);
    GuardStopsStraddling(url, "\"", n);
    CleanConcat(url, "\"", Pattern(n));
    GuardStopsStraddling(head, url + "\"", n);
    CleanConcat(head, url + "\"", Pattern(n));
    assert MigrationLine(true, url) == head + (url + "\"");
  }

  lemma CleanPair(a: string, b: string, n: string)
    requires IsName(n) && !Contains(a, Pattern(n)) && !Contains(b, Pattern(n)) && Guarded(b)
    ensures !Contains(a + b, Pattern(n))
  {
    GuardStopsStraddling(a, b, n);
    CleanConcat(a, b, Pattern(n));
  }

  lemma SectionIsClean(vc: VCenterConfig, secret: map<string, string>, single: bool, url: string, n: string)
    requires IsName(n) && !Contains(url, Pattern(n))
    requires forall k :: k in VCenterValues(vc, secret) ==> !Contains(VCenterValues(vc, secret)[k], Pattern(n))
    ensures !Contains("\n" + (Render(VCENTER_TEMPLATE, VCenterValues(vc, secret)) + MigrationLine(single, url)),
                     Pattern(n))
  {
    var values := VCenterValues(vc, secret);
    VCenterTemplateFits();
    AllHolesFilled(values);
    RenderedIsClean(VCENTER_TEMPLATE, values, n);
    MigrationLineIsClean(single, url, n);
    var b := Render(VCENTER_TEMPLATE, values) + MigrationLine(single, url);
    CleanPair(Render(VCENTER_TEMPLATE, values), MigrationLine(single, url), n);
    NoDollarNoPattern("\n", n);
    GuardStopsStraddling("\n", b, n);
    CleanConcat("\n", b, Pattern(n));
  }

  lemma AllHolesFilled(values: map<string, string>)
    requires "VCENTER" in values && "DATACENTERS" in values && "PASSWORD" in values && "USER" in values
    ensures forall s :: s in VCENTER_TEMPLATE && s.Hole? ==> s.name in values
  {}

  lemma {:induction false} SectionsAreClean(
      m: map<string, VCenterConfig>, secret: map<string, string>, url: string, keys: seq<string>, n: string)
    requires n in PLACEHOLDERS && PlainInputs(m, secret, "", url) && forall k :: k in keys ==> k in m
    ensures !Contains(Sections(m, secret, url, keys), Pattern(n))
  {
    PlaceholdersAreNames();
    if keys == [] {
      NoDollarNoPattern("", n);
    } else {
      var front, vc := keys[..|keys| - 1], m[keys[|keys| - 1]];
      SectionsAreClean(m, secret, url, front, n);
      SectionIsClean(vc, secret, |m| < 2, url, n);
      var section := "\n" + (Render(VCENTER_TEMPLATE, VCenterValues(vc, secret)) + MigrationLine(|m| < 2, url));
      assert section[0] == '\n';
      CleanPair(Sections(m, secret, url, front), section, n);
    }
  }

  // ---------- the file, whatever the map orders ----------

  /** The whole file, with the vCenter sections in the order `keys`. */
  function File(m: map<string, VCenterConfig>, secret: map<string, string>, infraName: string, url: string,
                categories: seq<string>, options: seq<(string, string)>, keys: seq<string>): string
    requires forall k :: k in keys ==> k in m
  {
    Render(CONFIG_TEMPLATE, map["CLUSTER_ID" := infraName, "VCENTERS" := Sections(m, secret, url, keys)])
    + Trailer(categories, options)
  }

  method RenderVCenter(vc: VCenterConfig, secret: map<string, string>) returns (r: string)
    ensures (forall n :: n in VCenterValues(vc, secret) ==> !Mentions(VCenterValues(vc, secret)[n]))
            ==> r == Render(VCENTER_TEMPLATE, VCenterValues(vc, secret))
  {
    VCenterTemplateFits();
    PlaceholdersAreNames();
    var values := VCenterValues(vc, secret);
    assert forall n :: n in values ==> n in PLACEHOLDERS;
    r := Substitute(Render(VCENTER_TEMPLATE, map[]), values, VCENTER_TEMPLATE);
  }

  method RenderConfig(infraName: string, vcenters: string) returns (r: string)
    ensures !Contains(infraName, Pattern("VCENTERS")) && !Contains(vcenters, Pattern("CLUSTER_ID"))
            ==> r == Render(CONFIG_TEMPLATE, map["CLUSTER_ID" := infraName, "VCENTERS" := vcenters])
  {
    ConfigTemplateFits();
    PlaceholdersAreNames();
    var values := map["CLUSTER_ID" := infraName, "VCENTERS" := vcenters];
    assert forall n :: n in values ==> n in PLACEHOLDERS;
    r := Substitute(Render(CONFIG_TEMPLATE, map[]), values, CONFIG_TEMPLATE);
  }

  method RenderSections(m: map<string, VCenterConfig>, secret: map<string, string>, url: string, keys: seq<string>)
    returns (r: string)
    requires |keys| == |m| && forall k :: k in keys ==> k in m
    ensures PlainInputs(m, secret, "", url) ==> r == Sections(m, secret, url, keys)
  {
    r := "";
    for i := 0 to |keys|
      invariant PlainInputs(m, secret, "", url) ==> r == Sections(m, secret, url, keys[..i])
    {
      var section := RenderVCenter(m[keys[i]], secret);
      var line := if |keys| < 2 then "\nmigration-datastore-url = \"" + url + "\"" else "";
      r := r + ("\n" + (section + line));
      NextSection(m, secret, url, keys, i);
    }
    assert keys[..|keys|] == keys;
  }

  method AppendTrailer(config: string, categories: seq<string>, options: seq<(string, string)>) returns (r: string)
    ensures r == config + Trailer(categories, options)
  {
    r := config;
    if |categories| > 0 {
      r := r + ("\n[Labels]\ntopology-categories = \"" + Joined(categories) + "\"");
    }
    ghost var labels := if |categories| > 0
                        then "\n[Labels]\ntopology-categories = \"" + Joined(categories) + "\"" else "";
    assert r == config + labels;
    ghost var snapshot := if |options| > 0 then "\n[Snapshot]" + OptionLines(options) else "";
    if |options| > 0 {
      r := r + ("\n[Snapshot]" + OptionLines(options));
    }
    assert r == config + labels + snapshot;
    r := r + "\n";
    assert config + labels + snapshot + "\n" == config + (labels + (snapshot + "\n"));
  }

  /**
   `secret` is absent when the lister fails.  The sections come out in sorted key order, and with
   plain inputs the file does not depend on the order in which either map of placeholders is walked.
   */
  method ApplyClusterCSIDriverChange(
      m: map<string, VCenterConfig>, secret: Option<map<string, string>>, infraName: string, url: string,
      driverCategories: seq<string>, domains: Option<seq<FailureDomain>>, options: seq<(string, string)>)
    returns (r: Option<string>)
    ensures r.None? <==> secret.None? && m.Keys != {}
    ensures var data := if secret.Some? then secret.value else map[];
            r.Some? && PlainInputs(m, data, infraName, url) ==>
              forall keys :: StrictlySorted(keys) && Elements(keys) == m.Keys ==>
                r.value == File(m, data, infraName, url, Topology.TopologyCategories(driverCategories, domains),
                              options, keys)
  {
    var keys := SortedListing(m.Keys);
    forall keys' | StrictlySorted(keys') && Elements(keys') == m.Keys ensures keys' == keys {
      SortedListingIsUnique(keys', keys);
    }
    SameSize(m, keys);
    if |keys| > 0 && secret.None? {
      assert keys[0] in m.Keys;
      return None;
    }
    var data := if secret.Some? then secret.value else map[];
    assert forall k :: k in keys <==> k in Elements(keys);
    var vcenters := RenderSections(m, data, url, keys);
    if PlainInputs(m, data, infraName, url) {
      assert PlainInputs(m, data, "", url) by {
        PlaceholdersAreNames();
        forall n | n in PLACEHOLDERS { NoDollarNoPattern("", n); }
      }
      SectionsAreClean(m, data, url, keys, "CLUSTER_ID");
      assert !Contains(infraName, Pattern("VCENTERS"));
    }
    var config := RenderConfig(infraName, vcenters);
    var categories := Topology.TopologyCategories(driverCategories, domains);
    var file := AppendTrailer(config, categories, options);
    r := Some(file);
  }

  lemma SameSize(m: map<string, VCenterConfig>, keys: seq<string>)
    requires StrictlySorted(keys) && Elements(keys) == m.Keys
    ensures |keys| == |m|
  {
    forall i, j | 0 <= i < j < |keys| ensures keys[i] != keys[j] { LessTotal(keys[i], keys[j]); }
    DistinctSize(keys);
  }

  lemma {:induction false} DistinctSize(keys: seq<string>)
    requires forall i, j :: 0 <= i < j < |keys| ==> keys[i] != keys[j]
    ensures |Elements(keys)| == |keys|
  {
    if keys != [] {
      DistinctSize(keys[1..]);
      assert Elements(keys) == Elements(keys[1..]) + {keys[0]};
      assert keys[0] !in keys[1..];
    }
  }

  lemma NextSection(m: map<string, VCenterConfig>, secret: map<string, string>, url: string, keys: seq<string>, i: nat)
    requires i < |keys| && forall k :: k in keys ==> k in m
    ensures Sections(m, secret, url, keys[..i + 1])
            == Sections(m, secret, url, keys[..i])
               + ("\n" + (Render(VCENTER_TEMPLATE, VCenterValues(m[keys[i]], secret)) + MigrationLine(|m| < 2, url)))
  {
    var upTo := keys[..i + 1];
    assert upTo[..|upTo| - 1] == keys[..i] && upTo[|upTo| - 1] == keys[i];
  }

  // ---------- the credentials in the file ----------

  lemma RenderTwoHoles(x: string, m: string, y: string, n: string, z: string, values: map<string, string>)
    requires m in values && n in values
    ensures Render([Text(x), Hole(m), Text(y), Hole(n), Text(z)], values) == x + values[m] + y + values[n] + z
  {
    var t := [Text(x), Hole(m), Text(y), Hole(n), Text(z)];
    assert t[1..] == [Hole(m), Text(y), Hole(n), Text(z)];
    assert t[1..][1..] == [Text(y), Hole(n), Text(z)];
    assert t[1..][1..][1..] == [Hole(n), Text(z)];
    assert t[1..][1..][1..][1..] == [Text(z)];
    var r := values[n] + z;
    assert Render([Text(z)], values) == z;
    assert Render([Hole(n), Text(z)], values) == r;
    assert Render([Text(y), Hole(n), Text(z)], values) == y + r;
    assert Render([Hole(m), Text(y), Hole(n), Text(z)], values) == values[m] + (y + r);
    assert Render(t, values) == x + (values[m] + (y + r));
  }

  lemma RenderHeader(x: string, m: string, y: string, n: string, values: map<string, string>)
    requires m in values && n in values
    ensures Render([Text(x), Hole(m), Text(y), Hole(n)], values) == x + values[m] + y + values[n]
  {
    var t := [Text(x), Hole(m), Text(y), Hole(n)];
    RenderTwoHoles(x, m, y, n, "", values);
    RenderConcat(t, [Text("")], values);
    assert t + [Text("")] == [Text(x), Hole(m), Text(y), Hole(n), Text("")];
    assert Render([Text("")], values) == "" + Render([Text("")][1..], values) == "";
    assert Render(t, values) + "" == Render(t, values);
    assert x + values[m] + y + values[n] + "" == x + values[m] + y + values[n];
  }

  lemma RenderCredentials(values: map<string, string>)
    requires "PASSWORD" in values && "USER" in values
    ensures Render(VCENTER_TEMPLATE[4..], values)
            == "\npassword = " + (Quoted(values["PASSWORD"]) + ("\nuser = " + Quoted(values["USER"])))
  {
    assert VCENTER_TEMPLATE[4..]
        == [Text("\npassword = \""), Hole("PASSWORD"), Text("\"\nuser = \""), Hole("USER"), Text("\"")];
    RenderTwoHoles("\npassword = \"", "PASSWORD", "\"\nuser = \"", "USER", "\"", values);
    assert "\npassword = \"" == "\npassword = " + "\"";
    assert "\"\nuser = \"" == "\"" + "\nuser = " + "\"";
    Reassociate("\npassword = ", "\"", values["PASSWORD"], "\nuser = ", values["USER"]);
  }

  lemma Reassociate(a: string, q: string, p: string, b: string, u: string)
    ensures a + q + p + (q + b + q) + u + q == a + ((q + p + q) + (b + (q + u + q)))
  {}

  lemma Regroup(f: string, a: string, p: string, b: string, u: string, t: string)
    ensures f + (a + (p + (b + u))) + t == f + a + (p + (b + (u + t)))
  {}

  /** In a rendered section the two credentials read back exactly under the stated conditions. */
  lemma CredentialsSurvive(vc: VCenterConfig, secret: map<string, string>, tail: string)
    returns (front: string, atPassword: string, atUser: string)
    requires LineEnds(tail)
    ensures Render(VCENTER_TEMPLATE, VCenterValues(vc, secret)) + tail == front + "\npassword = " + atPassword
    ensures front == "[VirtualCenter \"" + vc.vCenterIP + AFTER_VCENTER + vc.datacenters
    ensures var password := Lookup(secret, vc.vCenterIP + ".password");
            var user := Lookup(secret, vc.vCenterIP + ".username");
            && (ReadValue(atPassword) == Value(password, "\nuser = " + atUser) <==> Clean(password))
            && (ReadValue(atUser) == Value(user, tail)
                <==> IsDomainUser(user) || (Clean(user) && forall i :: 0 <= i < |user| ==> !Special(user[i])))
  {
    var password, user := Lookup(secret, vc.vCenterIP + ".password"), Lookup(secret, vc.vCenterIP + ".username");
    var values := VCenterValues(vc, secret);
    var p, u := EscapeQuotesAndBackslashes(password), EscapeBackslashInUsername(user);
    front := Render(VCENTER_TEMPLATE[..4], values);
    RenderHeader("[VirtualCenter \"", "VCENTER", AFTER_VCENTER, "DATACENTERS", values);
    assert VCENTER_TEMPLATE[..4]
        == [Text("[VirtualCenter \""), Hole("VCENTER"), Text(AFTER_VCENTER), Hole("DATACENTERS")];
    atUser := Quoted(u) + tail;
    atPassword := Quoted(p) + ("\nuser = " + atUser);
    RenderConcat(VCENTER_TEMPLATE[..4], VCENTER_TEMPLATE[4..], values);
    assert VCENTER_TEMPLATE[..4] + VCENTER_TEMPLATE[4..] == VCENTER_TEMPLATE;
    RenderCredentials(values);
    Regroup(front, "\npassword = ", Quoted(p), "\nuser = ", Quoted(u), tail);
    PasswordRoundTrip(password, "\nuser = " + atUser);
    UsernameRoundTrip(user, tail);
  }
}
