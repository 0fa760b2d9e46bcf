/** What the driver reads back from the configuration file: each entry, and exactly when it is the one meant. */
module ConfigReadsBack {
  import opened Platform
  import opened Ordering
  import opened Templates
  import opened Credentials
  import opened IniValues
  import opened PlatformSpecConversion
  import opened DriverConfig
  import Topology

  const GLOBAL_SECTION: string := "\n\n[Global]\ncluster-id = "
  /** The template's text from behind the closing quote: an empty line and a comment. */
  const BEHIND_CLUSTER_ID: string := AFTER_CLUSTER_ID[1..]

  lemma Ungroup(a: string, b: string, c: string, q: string, i: string, d: string, s: string, e: string)
    ensures a + (b + ((c + q) + i + (q + d) + s + e)) == a + b + c + ((q + i + q) + (d + (s + e)))
  {}

  lemma RenderConfigBody(values: map<string, string>)
    requires "CLUSTER_ID" in values && "VCENTERS" in values
    ensures Render(CONFIG_BODY, values)
            == (GLOBAL_SECTION + "\"") + values["CLUSTER_ID"] + ("\"" + BEHIND_CLUSTER_ID) + values["VCENTERS"] + "\n\n"
  {
    RenderTwoHoles("\n\n[Global]\ncluster-id = \"", "CLUSTER_ID", AFTER_CLUSTER_ID, "VCENTERS", "\n\n", values);
    QuoteOpens();
    QuoteCloses();
  }

  lemma QuoteOpens()
    ensures "\n\n[Global]\ncluster-id = \"" == GLOBAL_SECTION + "\""
  {}

  lemma QuoteCloses()
    ensures AFTER_CLUSTER_ID == "\"" + BEHIND_CLUSTER_ID
  {}

  lemma RenderText(x: string, t: seq<Segment>, values: map<string, string>)
    ensures Render([Text(x)] + t, values) == x + Render(t, values)
  {
    assert ([Text(x)] + t)[1..] == t;
  }

  lemma RenderConfigTemplate(values: map<string, string>)
    requires "CLUSTER_ID" in values && "VCENTERS" in values
    ensures Render(CONFIG_TEMPLATE, values)
            == COMMENT_START + COMMENT_END + GLOBAL_SECTION
               + (Quoted(values["CLUSTER_ID"]) + (BEHIND_CLUSTER_ID + (values["VCENTERS"] + "\n\n")))
  {
    RenderConfigBody(values);
    RenderText(COMMENT_END, CONFIG_BODY, values);
    RenderText(COMMENT_START, [Text(COMMENT_END)] + CONFIG_BODY, values);
    Ungroup(COMMENT_START, COMMENT_END, GLOBAL_SECTION, "\"", values["CLUSTER_ID"], BEHIND_CLUSTER_ID,
            values["VCENTERS"], "\n\n");
  }

  /** The file around the cluster's name and the sections; `head` and `middle` are the template's text. */
  lemma FileSplits(m: map<string, VCenterConfig>, secret: map<string, string>, infraName: string, url: string,
                   categories: seq<string>, options: seq<(string, string)>, keys: seq<string>)
    returns (head: string, middle: string)
    requires forall k :: k in keys ==> k in m
    ensures head == COMMENT_START + COMMENT_END + GLOBAL_SECTION && middle == BEHIND_CLUSTER_ID
    ensures File(m, secret, infraName, url, categories, options, keys)
            == head + (Quoted(infraName)
                       + (middle + (Sections(m, secret, url, keys) + ("\n\n" + Trailer(categories, options)))))
  {
    head, middle := COMMENT_START + COMMENT_END + GLOBAL_SECTION, BEHIND_CLUSTER_ID;
    RenderConfigTemplate(map["CLUSTER_ID" := infraName, "VCENTERS" := Sections(m, secret, url, keys)]);
    AppendBehind(head, Quoted(infraName), middle, Sections(m, secret, url, keys), "\n\n", Trailer(categories, options));
  }

  /** The cluster's name is quoted but not escaped. */
  lemma ClusterIdReadsBack(m: map<string, VCenterConfig>, secret: map<string, string>, infraName: string, url: string,
                           categories: seq<string>, options: seq<(string, string)>, keys: seq<string>)
    returns (head: string, atName: string, behind: string)
    requires forall k :: k in keys ==> k in m
    ensures head == COMMENT_START + COMMENT_END + GLOBAL_SECTION
    ensures File(m, secret, infraName, url, categories, options, keys) == head + atName
    ensures ReadValue(atName) == Value(infraName, behind) <==> Clean(infraName) && NoSpecials(infraName)
  {
    var middle;
    head, middle := FileSplits(m, secret, infraName, url, categories, options, keys);
    behind := middle + (Sections(m, secret, url, keys) + ("\n\n" + Trailer(categories, options)));
    atName := Quoted(infraName) + behind;
    assert middle[0] == '\n' == behind[0];
    QuotedRoundTrip(infraName, behind);
  }

  lemma AppendBehind(a: string, b: string, c: string, d: string, e: string, f: string)
    ensures (a + (b + (c + (d + e)))) + f == a + (b + (c + (d + (e + f))))
  {}

  /** A section with what may follow it, as the rendering appends it. */
  function SectionText(m: map<string, VCenterConfig>, secret: map<string, string>, url: string, key: string): string
    requires key in m
  {
    Render(VCENTER_TEMPLATE, VCenterValues(m[key], secret)) + MigrationLine(|m| < 2, url)
  }

  lemma JoinSections(front: string, here: string, back: string, last: string)
    ensures (front + "\n" + (here + back)) + ("\n" + last) == front + "\n" + (here + (back + ("\n" + last)))
    ensures front + "\n" + (last + "") == front + ("\n" + last)
  {}

  lemma SectionOpens(m: map<string, VCenterConfig>, secret: map<string, string>, url: string, key: string)
    requires key in m
    ensures SectionText(m, secret, url, key) != "" && SectionText(m, secret, url, key)[0] == '['
  {
    assert VCENTER_TEMPLATE == [VCENTER_TEMPLATE[0]] + VCENTER_TEMPLATE[1..];
    RenderText("[VirtualCenter \"", VCENTER_TEMPLATE[1..], VCenterValues(m[key], secret));
  }

  lemma LastSection(m: map<string, VCenterConfig>, secret: map<string, string>, url: string, keys: seq<string>)
    requires keys != [] && forall k :: k in keys ==> k in m
    ensures Sections(m, secret, url, keys)
            == Sections(m, secret, url, keys[..|keys| - 1]) + ("\n" + SectionText(m, secret, url, keys[|keys| - 1]))
  {}

  /** Every vCenter has its section, and each section is followed by the end of a line. */
  lemma {:induction false} SectionOf(
      m: map<string, VCenterConfig>, secret: map<string, string>, url: string, keys: seq<string>, i: nat)
    returns (front: string, back: string)
    requires i < |keys| && forall k :: k in keys ==> k in m
    ensures LineEnds(back) && (back != "" ==> |back| > 1 && back[1] == '[')
    ensures Sections(m, secret, url, keys) == front + "\n" + (SectionText(m, secret, url, keys[i]) + back)
    decreases |keys|
  {
    var n := |keys| - 1;
    LastSection(m, secret, url, keys);
    if i == n {
      front, back := Sections(m, secret, url, keys[..n]), "";
      JoinSections(front, "", "", SectionText(m, secret, url, keys[n]));
    } else {
      front, back := SectionOf(m, secret, url, keys[..n], i);
      assert keys[..n][i] == keys[i];
      JoinSections(front, SectionText(m, secret, url, keys[i]), back, SectionText(m, secret, url, keys[n]));
      SectionOpens(m, secret, url, keys[n]);
      back := back + ("\n" + SectionText(m, secret, url, keys[n]));
    }
  }

  /** What follows a section in the file also begins a new line: the migration line, another section, or the rest. */
  lemma SectionEnds(single: bool, url: string, back: string, rest: string) returns (atUrl: string, afterUrl: string)
    requires LineEnds(back) && (back != "" ==> |back| > 1 && back[1] == '[')
    requires |rest| > 1 && rest[0] == rest[1] == '\n'
    ensures var behind := MigrationLine(single, url) + (back + rest);
            && LineEnds(behind)
            && (single ==> behind == "\nmigration-datastore-url = " + atUrl)
            && (!single ==> |behind| > 1 && behind[1] in {'[', '\n'})
    ensures LineEnds(afterUrl) && (ReadValue(atUrl) == Value(url, afterUrl) <==> Clean(url) && NoSpecials(url))
  {
    afterUrl := back + rest;
    assert afterUrl[0] == '\n' && afterUrl[1] in {'[', '\n'};
    atUrl := Quoted(url) + afterUrl;
    QuotedRoundTrip(url, afterUrl);
    if single {
      assert MigrationLine(true, url) == "\nmigration-datastore-url = " + Quoted(url);
      assert MigrationLine(true, url) + afterUrl == "\nmigration-datastore-url = " + atUrl;
    } else {
      assert MigrationLine(false, url) + afterUrl == afterUrl;
    }
  }

  /** The file around one section. */
  lemma SectionStands(m: map<string, VCenterConfig>, secret: map<string, string>, infraName: string, url: string,
                      categories: seq<string>, options: seq<(string, string)>, keys: seq<string>, i: nat)
    returns (front: string, behind: string, atUrl: string, afterUrl: string)
    requires i < |keys| && forall k :: k in keys ==> k in m
    ensures File(m, secret, infraName, url, categories, options, keys)
            == front + "\n" + (Render(VCENTER_TEMPLATE, VCenterValues(m[keys[i]], secret)) + behind)
    ensures LineEnds(behind) && (|m| < 2 ==> behind == "\nmigration-datastore-url = " + atUrl)
    ensures |m| >= 2 ==> |behind| > 1 && behind[1] in {'[', '\n'}
    ensures LineEnds(afterUrl) && (ReadValue(atUrl) == Value(url, afterUrl) <==> Clean(url) && NoSpecials(url))
  {
    var line, rest := MigrationLine(|m| < 2, url), "\n\n" + Trailer(categories, options);
    var head, middle := Around(m, secret, infraName, url, categories, options, keys);
    var before, back := SectionOf(m, secret, url, keys, i);
    atUrl, afterUrl := SectionEnds(|m| < 2, url, back, rest);
    behind := line + (back + rest);
    front := head + Quoted(infraName) + middle + before;
    SectionInFile(head, Quoted(infraName), middle, before,
                  Render(VCENTER_TEMPLATE, VCenterValues(m[keys[i]], secret)), line, back, rest);
  }

  /** The same without saying what the template's text is. */
  lemma Around(m: map<string, VCenterConfig>, secret: map<string, string>, infraName: string, url: string,
               categories: seq<string>, options: seq<(string, string)>, keys: seq<string>)
    returns (head: string, middle: string)
    requires forall k :: k in keys ==> k in m
    ensures File(m, secret, infraName, url, categories, options, keys)
            == head + (Quoted(infraName)
                       + (middle + (Sections(m, secret, url, keys) + ("\n\n" + Trailer(categories, options)))))
  {
    head, middle := FileSplits(m, secret, infraName, url, categories, options, keys);
  }

  /**
   In the file the section of each vCenter starts with its address, and its entries read back exactly under these
   conditions: datacenters if they are bare, since they are not quoted; the password and the user name as stated for
   them alone; and, with a single vCenter, the URL for migration if it needs no escaping.
   */
  lemma SectionReadsBack(m: map<string, VCenterConfig>, secret: map<string, string>, infraName: string, url: string,
                         categories: seq<string>, options: seq<(string, string)>, keys: seq<string>, i: nat)
    returns (front: string, atDatacenters: string, atPassword: string, atUser: string, behind: string,
             atUrl: string, afterUrl: string)
    requires i < |keys| && forall k :: k in keys ==> k in m
    ensures var vc := m[keys[i]];
            File(m, secret, infraName, url, categories, options, keys)
            == front + "\n[VirtualCenter \"" + vc.vCenterIP + "\"]\ninsecure-flag = true\ndatacenters = "
               + atDatacenters
    ensures var vc := m[keys[i]];
            var password := Lookup(secret, vc.vCenterIP + ".password");
            var user := Lookup(secret, vc.vCenterIP + ".username");
            && (ReadAssigned(atDatacenters) == Value(vc.datacenters, "\npassword = " + atPassword)
                <==> Bare(vc.datacenters))
            && (ReadValue(atPassword) == Value(password, "\nuser = " + atUser) <==> Clean(password))
            && (ReadValue(atUser) == Value(user, behind) <==> IsDomainUser(user) || (Clean(user) && NoSpecials(user)))
    ensures LineEnds(behind) && (|m| < 2 ==> behind == "\nmigration-datastore-url = " + atUrl)
    ensures |m| >= 2 ==> |behind| > 1 && behind[1] in {'[', '\n'}
    ensures LineEnds(afterUrl) && (ReadValue(atUrl) == Value(url, afterUrl) <==> Clean(url) && NoSpecials(url))
  {
    var vc, header := m[keys[i]], "";
    front, behind, atUrl, afterUrl := SectionStands(m, secret, infraName, url, categories, options, keys, i);
    header, atPassword, atUser := CredentialsSurvive(vc, secret, behind);
    atDatacenters := vc.datacenters + ("\npassword = " + atPassword);
    BareRoundTrip(vc.datacenters, "\npassword = " + atPassword);
    HeaderInFile(front, vc.vCenterIP, vc.datacenters, atPassword);
  }

  lemma SectionInFile(a: string, n: string, b: string, f: string, s: string, l: string, k: string, t: string)
    ensures a + (n + (b + ((f + "\n" + ((s + l) + k)) + t))) == (a + n + b + f) + "\n" + (s + (l + (k + t)))
  {}

  lemma HeaderInFile(front: string, ip: string, datacenters: string, atPassword: string)
    ensures front + "\n" + (("[VirtualCenter \"" + ip + AFTER_VCENTER + datacenters) + "\npassword = " + atPassword)
            == front + "\n[VirtualCenter \"" + ip + "\"]\ninsecure-flag = true\ndatacenters = "
               + (datacenters + ("\npassword = " + atPassword))
  {
    var rest := "\npassword = " + atPassword;
    assert "\n[VirtualCenter \"" == "\n" + "[VirtualCenter \"";
    assert (("[VirtualCenter \"" + ip + AFTER_VCENTER + datacenters) + "\npassword = " + atPassword)
        == "[VirtualCenter \"" + ip + AFTER_VCENTER + (datacenters + rest);
    assert front + "\n" + ("[VirtualCenter \"" + ip + AFTER_VCENTER + (datacenters + rest))
        == front + ("\n" + "[VirtualCenter \"") + ip + AFTER_VCENTER + (datacenters + rest);
  }

  // ---------- behind the sections ----------

  /** With two or more failure domains the labels are those of zone and region, whatever the driver object says. */
  lemma CategoriesAre(driver: seq<string>, domains: Option<seq<FailureDomain>>)
    ensures Topology.TopologyCategories(driver, domains)
            == if domains.Some? && |domains.value| >= 2 then ["openshift-zone", "openshift-region"] else driver
  {}

  /** The labels read back as the joined categories, from which splitting recovers each. */
  lemma LabelsReadBack(categories: seq<string>, options: seq<(string, string)>) returns (at: string, behind: string)
    requires categories != []
    ensures Trailer(categories, options) == "\n[Labels]\ntopology-categories = " + at && LineEnds(behind)
    ensures var joined := Joined(categories);
            ReadValue(at) == Value(joined, behind) <==> Clean(joined) && NoSpecials(joined)
    ensures (forall k :: 0 <= k < |categories| ==> ',' !in categories[k]) <==> Split(Joined(categories)) == categories
  {
    var joined := Joined(categories);
    behind := (if |options| > 0 then "\n[Snapshot]" + OptionLines(options) else "") + "\n";
    assert LineEnds(behind);
    at := Quoted(joined) + behind;
    QuotedRoundTrip(joined, behind);
    assert "\n[Labels]\ntopology-categories = \"" == "\n[Labels]\ntopology-categories = " + "\"";
    assert Trailer(categories, options) == "\n[Labels]\ntopology-categories = " + at;
    SplitThenJoin(joined);
    if forall k :: 0 <= k < |categories| ==> ',' !in categories[k] { JoinThenSplit(categories); }
  }

  /** Every snapshot option has its line, and its value reads back exactly when it is bare. */
  lemma {:induction false} OptionReadsBack(options: seq<(string, string)>, i: nat, tail: string)
    returns (front: string, at: string, behind: string)
    requires i < |options| && LineEnds(tail)
    ensures OptionLines(options) + tail == front + "\n" + options[i].0 + " = " + at && LineEnds(behind)
    ensures ReadAssigned(at) == Value(options[i].1, behind) <==> Bare(options[i].1)
    decreases |options|
  {
    var n := |options| - 1;
    if i == n {
      front, behind := OptionLines(options[..n]), tail;
      at := options[i].1 + behind;
      BareRoundTrip(options[i].1, behind);
      assert front + "\n" + options[n].0 + " = " + options[n].1 + tail == front + "\n" + options[n].0 + " = " + at;
    } else {
      var line := "\n" + options[n].0 + " = " + options[n].1;
      front, at, behind := OptionReadsBack(options[..n], i, line + tail);
      assert OptionLines(options[..n]) + "\n" + options[n].0 + " = " + options[n].1 + tail
          == OptionLines(options[..n]) + (line + tail);
    }
  }

  /** In the file's last section. */
  lemma SnapshotOptionReadsBack(categories: seq<string>, options: seq<(string, string)>, i: nat)
    returns (labels: string, front: string, at: string, behind: string)
    requires i < |options|
    ensures Trailer(categories, options) == labels + "\n[Snapshot]" + (front + "\n" + options[i].0 + " = " + at)
    ensures LineEnds(behind) && (ReadAssigned(at) == Value(options[i].1, behind) <==> Bare(options[i].1))
    ensures categories == [] ==> labels == ""
  {
    labels := if |categories| > 0 then "\n[Labels]\ntopology-categories = \"" + Joined(categories) + "\"" else "";
    front, at, behind := OptionReadsBack(options, i, "\n");
    BehindSnapshot(labels, OptionLines(options));
  }

  lemma BehindSnapshot(labels: string, lines: string)
    ensures labels + ("\n[Snapshot]" + lines + "\n") == labels + "\n[Snapshot]" + (lines + "\n")
  {}
}
