/** Blanking and extracting the secrets of one stored configuration. */
module ConfigSecrets {
  import opened Prelude
  import opened SecretStore
  import opened JsonBlank

  /** config.json content: not object-shaped, object-shaped but unparseable, or a
      parsed object. */
  datatype Content = Text(text: string) | Broken(text: string) | Tree(fields: Fields)

  // ----- Blanking

  /** Walks the segments and empties the final string. */
  method BlankPath(m: Fields, segs: seq<string>) returns (out: Fields, changed: bool)
    ensures out == PathBlanked(m, segs) && (changed <==> out != m)
    decreases |segs|
  {
    if segs == [] { return m, false; }
    var key := segs[0];
    if |segs| == 1 {
      if key !in m || !m[key].Str? || m[key].s == "" { return m, false; }
      assert m[key] != Str("");
      return m[key := Str("")], true;
    }
    if key !in m || !m[key].Obj? { return m, false; }
    var child;
    child, changed := BlankPath(m[key].fields, segs[1..]);
    out := m[key := Obj(child)];
    assert out[key] == Obj(child) && m[key] == Obj(m[key].fields);
  }

  /** Recurses objects and arrays; a string is only ever emptied by the object
      whose sensitive key it sits under. */
  method BlankSensitiveLeaves(v: Json) returns (out: Json, changed: bool)
    ensures out == Blanked(v) && (changed <==> out != v)
    decreases v
  {
    changed := false;
    match v {
      case Obj(m) =>
        var t, rest := m, m.Keys;
        while rest != {}
          invariant rest <= m.Keys == t.Keys
          invariant forall k :: k in m ==> t[k] == if k in rest then m[k] else BlankedField(k, m[k])
          invariant changed <==> t != m
          decreases rest
        {
          var k :| k in rest;
          rest := rest - {k};
          var val := m[k];
          if val.Str? {
            if val.s != "" && SensitiveKey(k) {
              t, changed := t[k := Str("")], true;
              assert t[k] != m[k];
            }
            continue;
          }
          var item, hit := BlankSensitiveLeaves(val);
          ghost var before := t;
          t := t[k := item];
          if hit {
            changed := true;
            assert t[k] != m[k];
          } else {
            assert t == before;
          }
        }
        out := Obj(t);
      case Arr(items) =>
        var t := items;
        for i := 0 to |items|
          invariant |t| == |items|
          invariant forall j :: 0 <= j < |items| ==> t[j] == if j < i then Blanked(items[j]) else items[j]
          invariant changed <==> t != items
        {
          var item, hit := BlankSensitiveLeaves(items[i]);
          ghost var before := t;
          t := t[i := item];
          if hit {
            changed := true;
            assert t[i] != items[i];
          } else {
            assert t == before;
          }
        }
        out := Arr(t);
      case _ =>
        out := v;
    }
  }

  /** Content with every sensitive leaf emptied, and whether that changed anything.
      Object-shaped content that does not parse fails closed. */
  method BlankConfigSecrets(content: Content) returns (r: Result<(Content, bool), ()>)
    ensures content.Text? ==> r == Ok((content, false))
    ensures content.Broken? ==> r.Err?
    ensures content.Tree? ==>
      (var blanked := BlankedFields(content.fields);
       r == Ok((Tree(blanked), blanked != content.fields)))
  {
    if content.Text? { return Ok((content, false)); }
    if content.Broken? { return Err(()); }
    var m, changed := content.fields, false;
    for i := 0 to |SCALAR_SECRET_FIELDS|
      invariant BlankedFields(m) == BlankedFields(content.fields)
      invariant changed ==> !AllBlank(content.fields)
      invariant !changed ==> m == content.fields
    {
      AllowlistIsSensitive(SCALAR_SECRET_FIELDS[i]);
      var segs := SplitDots(SCALAR_SECRET_FIELDS[i]);
      BackstopSubsumesPath(m, segs);
      BlankingPathIsBlanking(m, segs);
      var hit;
      m, hit := BlankPath(m, segs);
      changed := changed || hit;
    }
    var v, hit := BlankSensitiveLeaves(Obj(m));
    changed := changed || hit;
    assert v == Obj(BlankedFields(content.fields));
    if !changed { return Ok((content, false)); }
    return Ok((Tree(v.fields), true));
  }

  predicate AllBlank(m: Fields) {
    BlankedFields(m) == m
  }

  /** A path the allowlist empties was something the backstop would have emptied. */
  lemma {:induction false} BlankingPathIsBlanking(m: Fields, segs: seq<string>)
    requires segs != [] && SensitiveKey(segs[|segs| - 1])
    ensures PathBlanked(m, segs) != m ==> !AllBlank(m)
    decreases |segs|
  {
    var k := segs[0];
    if PathBlanked(m, segs) != m {
      if |segs| > 1 { BlankingPathIsBlanking(m[k].fields, segs[1..]); }
      assert BlankedFields(m)[k] == BlankedField(k, m[k]);
    }
  }

  // ----- Extraction

  function ReadPath(m: Fields, segs: seq<string>): Option<string>
    decreases |segs|
  {
    if segs == [] || segs[0] !in m then None
    else if |segs| == 1 then (if m[segs[0]].Str? then Some(m[segs[0]].s) else None)
    else if m[segs[0]].Obj? then ReadPath(m[segs[0]].fields, segs[1..])
    else None
  }

  /** The objects of wifi.networks[], in order. */
  function WifiNetworks(m: Fields): seq<Fields> {
    if "wifi" in m && m["wifi"].Obj? && "networks" in m["wifi"].fields && m["wifi"].fields["networks"].Arr?
    then ObjectsOf(m["wifi"].fields["networks"].items) else []
  }

  function ObjectsOf(items: seq<Json>): seq<Fields> {
    if items == [] then []
    else ObjectsOf(items[..|items| - 1]) + (if items[|items| - 1].Obj? then [items[|items| - 1].fields] else [])
  }

  function StringAt(m: Fields, key: string): Option<string> {
    if key in m && m[key].Str? then Some(m[key].s) else None
  }

  /** The password of the first network of that name, if it has one. */
  function FirstPassword(nets: seq<Fields>, ssid: string): Option<string> {
    if nets == [] then None
    else if StringAt(nets[0], "ssid") == Some(ssid) then StringAt(nets[0], "password")
    else FirstPassword(nets[1..], ssid)
  }

  predicate Useful(v: Option<string>) {
    v.Some? && v.value != ""
  }

  /** What extraction owes: each scalar with a value, and each named network's
      first password if it has a value, under its storage field; nothing else. */
  ghost predicate Extracts(m: Fields, out: map<string, string>) {
    && (forall f :: f in SCALAR_SECRET_FIELDS ==> Kept(out, f, ReadPath(m, SplitDots(f))))
    && (forall ssid: string :: ssid != "" ==> Kept(out, WifiSecretField(ssid), FirstPassword(WifiNetworks(m), ssid)))
    && (forall f :: f in out ==> f in SCALAR_SECRET_FIELDS || IsWifiKey(f))
  }

  predicate Kept(out: map<string, string>, f: string, v: Option<string>) {
    (f in out <==> Useful(v)) && (f in out ==> out[f] == v.value)
  }

  function WifiSecretField(ssid: string): string {
    if ssid == "" then "" else WIFI_PASSWORD_PREFIX + ssid
  }

  ghost predicate IsWifiKey(f: string) {
    WIFI_PASSWORD_PREFIX <= f && |f| > |WIFI_PASSWORD_PREFIX|
  }

  method ReadPathLoop(m: Fields, segs: seq<string>) returns (v: Option<string>)
    ensures v == ReadPath(m, segs)
  {
    var cur := m;
    for i := 0 to |segs|
      invariant ReadPath(cur, segs[i..]) == ReadPath(m, segs)
    {
      var seg := segs[i];
      if i == |segs| - 1 {
        return StringAt(cur, seg);
      }
      if seg !in cur || !cur[seg].Obj? { return None; }
      assert segs[i..][1..] == segs[i + 1..];
      cur := cur[seg].fields;
    }
    return None;
  }

  method WifiNetworksLoop(m: Fields) returns (out: seq<Fields>)
    ensures out == WifiNetworks(m)
  {
    out := [];
    if "wifi" !in m || !m["wifi"].Obj? { return; }
    var wifi := m["wifi"].fields;
    if "networks" !in wifi || !wifi["networks"].Arr? { return; }
    var arr := wifi["networks"].items;
    for i := 0 to |arr|
      invariant out == ObjectsOf(arr[..i])
    {
      assert arr[..i + 1][..i] == arr[..i];
      if arr[i].Obj? { out := out + [arr[i].fields]; }
    }
    assert arr[..|arr|] == arr;
  }

  /** The SSIDs of the networks that have one. */
  method WifiNetworkSSIDs(m: Fields) returns (out: seq<string>)
    ensures forall s :: s in out <==>
      s != "" && exists i :: 0 <= i < |WifiNetworks(m)| && StringAt(WifiNetworks(m)[i], "ssid") == Some(s)
  {
    var nets := WifiNetworksLoop(m);
    out := [];
    for i := 0 to |nets|
      invariant forall s :: s in out <==> s != "" && exists j :: 0 <= j < i && StringAt(nets[j], "ssid") == Some(s)
    {
      var ssid := StringAt(nets[i], "ssid");
      if ssid.Some? && ssid.value != "" { out := out + [ssid.value]; }
    }
  }

  method WifiNetworkPassword(m: Fields, ssid: string) returns (v: Option<string>)
    ensures v == FirstPassword(WifiNetworks(m), ssid)
  {
    var nets := WifiNetworksLoop(m);
    for i := 0 to |nets|
      invariant FirstPassword(nets[i..], ssid) == FirstPassword(nets, ssid)
    {
      assert nets[i..][1..] == nets[i + 1..];
      if StringAt(nets[i], "ssid") == Some(ssid) { return StringAt(nets[i], "password"); }
    }
    return None;
  }

  lemma {:induction false} UnnamedHasNoPassword(nets: seq<Fields>, ssid: string)
    requires forall i :: 0 <= i < |nets| ==> StringAt(nets[i], "ssid") != Some(ssid)
    ensures FirstPassword(nets, ssid) == None
  {
    if nets != [] { UnnamedHasNoPassword(nets[1..], ssid); }
  }

  predicate ScalarKept(m: Fields, out: map<string, string>, f: string) {
    Kept(out, f, ReadPath(m, SplitDots(f)))
  }

  ghost predicate ScalarsKept(m: Fields, out: map<string, string>) {
    forall f :: f in SCALAR_SECRET_FIELDS ==> ScalarKept(m, out, f)
  }

  /** Adding one scalar keeps the others. */
  lemma AddingScalar(m: Fields, out: map<string, string>, dotted: string, v: string)
    requires ReadPath(m, SplitDots(dotted)) == Some(v) && v != ""
    ensures ScalarKept(m, out[dotted := v], dotted)
    ensures forall f :: f != dotted ==> ScalarKept(m, out[dotted := v], f) == ScalarKept(m, out, f)
  {
  }

  method ExtractScalars(m: Fields) returns (out: map<string, string>)
    ensures ScalarsKept(m, out) && forall f :: f in out ==> f in SCALAR_SECRET_FIELDS
  {
    out := map[];
    var todo := SCALAR_SECRET_FIELDS;
    while todo != []
      invariant forall f :: f in todo ==> f in SCALAR_SECRET_FIELDS
      invariant forall f :: f in SCALAR_SECRET_FIELDS && f !in todo ==> ScalarKept(m, out, f)
      invariant forall f :: f in out ==> f in SCALAR_SECRET_FIELDS && ScalarKept(m, out, f)
      decreases |todo|
    {
      var dotted := todo[0];
      assert todo == [dotted] + todo[1..];
      var v := ReadPathLoop(m, SplitDots(dotted));
      if Useful(v) {
        AddingScalar(m, out, dotted, v.value);
        out := out[dotted := v.value];
      }
      todo := todo[1..];
    }
  }

  ghost predicate PasswordKept(m: Fields, out: map<string, string>, ssid: string) {
    Kept(out, WifiSecretField(ssid), FirstPassword(WifiNetworks(m), ssid))
  }

  lemma WifiFieldsAreApart(a: string, b: string)
    ensures WifiSecretField(a) !in SCALAR_SECRET_FIELDS
    ensures WifiSecretField(a) == WifiSecretField(b) ==> a == b
  {
    var x, y := WifiSecretField(a), WifiSecretField(b);
    assert a != "" ==> x[13] == ':' && x[|WIFI_PASSWORD_PREFIX|..] == a;
    assert b != "" ==> y[|WIFI_PASSWORD_PREFIX|..] == b;
  }

  /** Adding one network's password keeps the scalars and the other networks'. */
  lemma AddingPassword(m: Fields, out: map<string, string>, ssid: string, v: string)
    requires ScalarsKept(m, out) && FirstPassword(WifiNetworks(m), ssid) == Some(v) && v != ""
    ensures var after := out[WifiSecretField(ssid) := v];
      ScalarsKept(m, after) && PasswordKept(m, after, ssid)
      && forall other :: PasswordKept(m, out, other) ==> PasswordKept(m, after, other)
  {
    WifiFieldsAreApart(ssid, ssid);
    forall other ensures WifiSecretField(other) == WifiSecretField(ssid) ==> other == ssid {
      WifiFieldsAreApart(other, ssid);
    }
  }

  /** Every key is a scalar's or that of a network already visited. */
  ghost predicate OnlyKnown(out: map<string, string>, ssids: seq<string>) {
    forall f :: f in out ==> f in SCALAR_SECRET_FIELDS || exists s :: s in ssids && s != "" && f == WifiSecretField(s)
  }

  method ExtractConfigSecrets(content: Content) returns (out: map<string, string>)
    ensures content.Tree? ==> Extracts(content.fields, out)
    ensures !content.Tree? ==> out == map[]
  {
    out := map[];
    if !content.Tree? { return; }
    var m := content.fields;
    out := ExtractScalars(m);
    var ssids := WifiNetworkSSIDs(m);
    for i := 0 to |ssids|
      invariant ScalarsKept(m, out) && OnlyKnown(out, ssids[..i])
      invariant forall s :: s in ssids[..i] ==> PasswordKept(m, out, s)
    {
      var pw := WifiNetworkPassword(m, ssids[i]);
      assert ssids[..i + 1] == ssids[..i] + [ssids[i]];
      assert ssids[i] in ssids;
      OneMorePassword(m, out, ssids[..i], ssids[i]);
      if Useful(pw) {
        out := out[WifiSecretField(ssids[i]) := pw.value];
      }
    }
    assert ssids[..|ssids|] == ssids;
    ExtractEnds(m, out, ssids);
  }

  /** One name's turn. */
  lemma OneMorePassword(m: Fields, out: map<string, string>, done: seq<string>, ssid: string)
    requires ScalarsKept(m, out) && OnlyKnown(out, done) && forall s :: s in done ==> PasswordKept(m, out, s)
    requires ssid != ""
    ensures var pw := FirstPassword(WifiNetworks(m), ssid);
      var next := if Useful(pw) then out[WifiSecretField(ssid) := pw.value] else out;
      ScalarsKept(m, next) && OnlyKnown(next, done + [ssid])
      && forall s :: s in done + [ssid] ==> PasswordKept(m, next, s)
  {
    var pw := FirstPassword(WifiNetworks(m), ssid);
    NotYetThere(out, done, ssid);
    if Useful(pw) { AddingPassword(m, out, ssid, pw.value); }
  }

  /** A network's key is only there if its name was visited. */
  lemma NotYetThere(out: map<string, string>, ssids: seq<string>, ssid: string)
    requires OnlyKnown(out, ssids)
    ensures WifiSecretField(ssid) in out ==> ssid in ssids
  {
    WifiFieldsAreApart(ssid, ssid);
    if WifiSecretField(ssid) in out {
      var s :| s in ssids && WifiSecretField(s) == WifiSecretField(ssid);
      WifiFieldsAreApart(s, ssid);
    }
  }

  lemma ExtractEnds(m: Fields, out: map<string, string>, ssids: seq<string>)
    requires ScalarsKept(m, out) && OnlyKnown(out, ssids)
    requires forall s :: s in ssids ==> PasswordKept(m, out, s)
    requires forall s :: s in ssids <==>
      s != "" && exists i :: 0 <= i < |WifiNetworks(m)| && StringAt(WifiNetworks(m)[i], "ssid") == Some(s)
    ensures Extracts(m, out)
  {
    forall s: string | s != "" && s !in ssids ensures PasswordKept(m, out, s) {
      UnnamedHasNoPassword(WifiNetworks(m), s);
      NotYetThere(out, ssids, s);
    }
  }

  // ----- Blanking and extraction together

  lemma {:induction false} ReadPathOfBlanked(m: Fields, segs: seq<string>)
    requires segs != [] && SensitiveKey(segs[|segs| - 1])
    ensures ReadPath(BlankedFields(m), segs) == if ReadPath(m, segs).Some? then Some("") else None
    decreases |segs|
  {
    var k := segs[0];
    if k in m {
      assert BlankedFields(m)[k] == BlankedField(k, m[k]);
      if |segs| > 1 && m[k].Obj? {
        ReadPathOfBlanked(m[k].fields, segs[1..]);
        assert BlankedFields(m)[k] == Obj(BlankedFields(m[k].fields));
      }
    }
  }

  lemma {:induction false} ObjectsOfBlanked(items: seq<Json>)
    ensures var now, was := ObjectsOf(Blanked(Arr(items)).items), ObjectsOf(items);
      |now| == |was| && forall i :: 0 <= i < |was| ==> now[i] == BlankedFields(was[i])
  {
    if items != [] {
      ObjectsOfBlanked(items[..|items| - 1]);
      assert Blanked(Arr(items)).items[..|items| - 1] == Blanked(Arr(items[..|items| - 1])).items;
    }
  }

  lemma {:induction false} NoPasswordLeft(nets: seq<Fields>, ssid: string)
    requires forall i :: 0 <= i < |nets| ==> !Useful(StringAt(nets[i], "password"))
    ensures !Useful(FirstPassword(nets, ssid))
  {
    if nets != [] { NoPasswordLeft(nets[1..], ssid); }
  }

  lemma BlankedNetworks(m: Fields)
    ensures var now, was := WifiNetworks(BlankedFields(m)), WifiNetworks(m);
      |now| == |was| && forall i :: 0 <= i < |was| ==> now[i] == BlankedFields(was[i])
  {
    if "wifi" in m {
      assert BlankedFields(m)["wifi"] == BlankedField("wifi", m["wifi"]);
      if m["wifi"].Obj? && "networks" in m["wifi"].fields {
        var wifi := m["wifi"].fields;
        assert m["wifi"] == Obj(wifi) && BlankedFields(m)["wifi"] == Obj(BlankedFields(wifi));
        assert BlankedFields(wifi)["networks"] == BlankedField("networks", wifi["networks"]);
        if wifi["networks"].Arr? {
          var items := wifi["networks"].items;
          assert wifi["networks"] == Arr(items);
          ObjectsOfBlanked(items);
        } else {
          assert !Blanked(wifi["networks"]).Arr? && WifiNetworks(m) == [];
        }
      }
    }
  }

  lemma BlankedStringAt(m: Fields, k: string)
    requires SensitiveKey(k)
    ensures StringAt(BlankedFields(m), k) == if StringAt(m, k).Some? then Some("") else None
  {
    if k in m {
      assert BlankedFields(m)[k] == BlankedField(k, m[k]);
      BlankedIsString(k, m[k]);
    }
  }

  lemma BlankedIsString(k: string, v: Json)
    requires SensitiveKey(k)
    ensures BlankedField(k, v).Str? <==> v.Str?
    ensures v.Str? ==> BlankedField(k, v) == Str("")
  {
    if !v.Str? { assert BlankedField(k, v) == Blanked(v); }
  }

  lemma BlankedNetworksHaveNoPassword(m: Fields, ssid: string)
    ensures !Useful(FirstPassword(WifiNetworks(BlankedFields(m)), ssid))
  {
    var now := BlankedFields(m);
    AllowlistKeysAreSensitive();
    BlankedNetworks(m);
    forall i | 0 <= i < |WifiNetworks(now)| ensures !Useful(StringAt(WifiNetworks(now)[i], "password")) {
      assert WifiNetworks(now)[i] == BlankedFields(WifiNetworks(m)[i]);
      BlankedStringAt(WifiNetworks(m)[i], "password");
    }
    NoPasswordLeft(WifiNetworks(now), ssid);
  }

  /** Nothing can be extracted from a blanked configuration. */
  lemma ExtractionOfBlankedIsEmpty(m: Fields, out: map<string, string>)
    requires Extracts(BlankedFields(m), out)
    ensures out == map[]
  {
    forall f | f in out ensures false {
      if f in SCALAR_SECRET_FIELDS {
        AllowlistIsSensitive(f);
        ReadPathOfBlanked(m, SplitDots(f));
        assert false;
      } else {
        var ssid := f[|WIFI_PASSWORD_PREFIX|..];
        assert f == WifiSecretField(ssid);
        BlankedNetworksHaveNoPassword(m, ssid);
        assert false;
      }
    }
  }

  /** The network's own password is in the extraction, under its own SSID's field. */
  predicate StoresPassword(out: map<string, string>, net: Fields) {
    var ssid, pw := StringAt(net, "ssid"), StringAt(net, "password");
    ssid.Some? && pw.Some? && WifiSecretField(ssid.value) in out && out[WifiSecretField(ssid.value)] == pw.value
  }

  /** Blanking empties every network's password; extraction keeps it exactly when the
      network has a name and the first network of that name has the same password.
      The others are in neither place afterwards. */
  lemma PasswordSurvivesIff(m: Fields, out: map<string, string>, i: nat)
    requires Extracts(m, out) && i < |WifiNetworks(m)| && Useful(StringAt(WifiNetworks(m)[i], "password"))
    ensures var net, ssid := WifiNetworks(m)[i], StringAt(WifiNetworks(m)[i], "ssid");
      StoresPassword(out, net) <==>
        ssid.Some? && ssid.value != "" && FirstPassword(WifiNetworks(m), ssid.value) == StringAt(net, "password")
    ensures i < |WifiNetworks(BlankedFields(m))| && StringAt(WifiNetworks(BlankedFields(m))[i], "password") == Some("")
  {
    var net, ssid := WifiNetworks(m)[i], StringAt(WifiNetworks(m)[i], "ssid");
    if ssid.Some? && ssid.value != "" {
      assert Kept(out, WifiSecretField(ssid.value), FirstPassword(WifiNetworks(m), ssid.value));
    }
    BlankedPasswordIsEmpty(m, i);
  }

  lemma BlankedPasswordIsEmpty(m: Fields, i: nat)
    requires i < |WifiNetworks(m)| && StringAt(WifiNetworks(m)[i], "password").Some?
    ensures i < |WifiNetworks(BlankedFields(m))| && StringAt(WifiNetworks(BlankedFields(m))[i], "password") == Some("")
  {
    BlankedNetworks(m);
    AllowlistKeysAreSensitive();
    BlankedStringAt(WifiNetworks(m)[i], "password");
  }

  /** In particular the second of two networks of one name with two passwords. */
  lemma SecondPasswordOfAnSsidIsLost(m: Fields, out: map<string, string>, i: nat, j: nat)
    requires Extracts(m, out) && i < j < |WifiNetworks(m)|
    requires Useful(StringAt(WifiNetworks(m)[j], "password"))
    requires StringAt(WifiNetworks(m)[i], "ssid") == StringAt(WifiNetworks(m)[j], "ssid")
    requires StringAt(WifiNetworks(m)[i], "password") != StringAt(WifiNetworks(m)[j], "password")
    requires forall k :: 0 <= k < i ==> StringAt(WifiNetworks(m)[k], "ssid") != StringAt(WifiNetworks(m)[i], "ssid")
    ensures !StoresPassword(out, WifiNetworks(m)[j])
  {
    var nets := WifiNetworks(m);
    PasswordSurvivesIff(m, out, j);
    if StringAt(nets[j], "ssid").Some? { FirstOfName(nets, StringAt(nets[j], "ssid").value, i); }
  }

  lemma {:induction false} FirstOfName(nets: seq<Fields>, ssid: string, i: nat)
    requires i < |nets| && StringAt(nets[i], "ssid") == Some(ssid)
    requires forall k :: 0 <= k < i ==> StringAt(nets[k], "ssid") != Some(ssid)
    ensures FirstPassword(nets, ssid) == StringAt(nets[i], "password")
  {
    if i > 0 {
      assert forall k :: 0 <= k < i - 1 ==> nets[1..][k] == nets[k + 1];
      FirstOfName(nets[1..], ssid, i - 1);
    }
  }
}
