/** What a snapshot offers, and what the setters then accept. */
module Offers {
  import opened Results
  import opened Text
  import opened Codecs
  import opened Store
  import opened Sensors
  import opened SensorCache
  import opened Hardware
  import opened ReadBack

  // ----- profiles -----

  /** SetProfile gets as far as the file, whatever the device then does. */
  ghost predicate LetsThrough(t: Tree, c: Core, value: string) {
    forall k, w :: SetProfile(t, c, k, value, w).writes == [(Fixed(Attribute.PlatformProfile), value)]
  }

  /** SetProfile is refused as unavailable, and nothing is written or changed. */
  ghost predicate TurnsAway(t: Tree, c: Core, value: string) {
    forall k, w :: SetProfile(t, c, k, value, w) == Refuse(t, c, NotAvailable)
  }

  lemma SetProfileMeaning(t: Tree, c: Core, value: string)
    requires c.caps.thermalProfile && ChoicesAt(t).Some?
    ensures var accepted := HasValue(PROFILE_OPTIONS, value) && IsOffered(value, ChoicesAt(t).value, PowerSourceOf(t));
            if accepted then LetsThrough(t, c, value) else TurnsAway(t, c, value)
  {
    hide HasValue, Offered, ChoicesAt, PowerSourceOf, IsOffered, Snapshot, IsOld;
    OfferedAreOptions(PROFILE_OPTIONS, ChoicesAt(t).value, PowerSourceOf(t), value);
  }

  /** The choices a snapshot reports from, which are current after a refresh. */
  lemma AvailableMeaning(t: Tree, c: Core, k: Ticks, value: string)
    requires c.caps.thermalProfile
    ensures HasValue(Snapshot(t, c, k).0.profile.available, value) <==>
            HasValue(PROFILE_OPTIONS, value) && IsOffered(value, SlowNow(t, c, k).profileChoices, PowerSourceOf(t))
  {
    hide HasValue, Offered, PowerSourceOf, IsOffered, IsOld, ReadFans, ReadTemperatures, SlowNow, ProfileAt, FanPart,
         FastDegraded;
    OfferedAreOptions(PROFILE_OPTIONS, SlowNow(t, c, k).profileChoices, PowerSourceOf(t), value);
  }

  /** The cached choices offer the same permitted options as the file does now. */
  predicate ChoicesAgree(cached: seq<string>, now: seq<string>, power: PowerSource) {
    forall i :: 0 <= i < |PROFILE_OPTIONS| && Permitted(PROFILE_OPTIONS[i].value, power) ==>
      (PROFILE_OPTIONS[i].value in cached <==> PROFILE_OPTIONS[i].value in now)
  }

  /** For each value, what the last snapshot offered is what SetProfile lets through. */
  ghost predicate OffersHonoured(t: Tree, c: Core, k: Ticks) {
    var (s, after) := Snapshot(t, c, k);
    forall value ::
      if HasValue(s.profile.available, value) then LetsThrough(t, after, value) else TurnsAway(t, after, value)
  }

  lemma LetsThroughOrNot(t: Tree, c: Core, value: string)
    ensures !(LetsThrough(t, c, value) && TurnsAway(t, c, value))
  {
    hide SetProfile;
    var k, w := Ticks(0, 0, 0), WriteResult(true, t);
    if LetsThrough(t, c, value) {
      assert SetProfile(t, c, k, value, w).writes == [(Fixed(Attribute.PlatformProfile), value)];
    }
  }

  /** The offers of a snapshot are honoured exactly when the choices it used still offer the
      same options; they do when it refreshed them, or when they have not changed since. */
  lemma OfferedIsAccepted(t: Tree, c: Core, k: Ticks)
    requires c.caps.thermalProfile && ChoicesAt(t).Some?
    ensures OffersHonoured(t, c, k) <==>
            ChoicesAgree(SlowNow(t, c, k).profileChoices, ChoicesAt(t).value, PowerSourceOf(t))
    ensures IsOld(c.slow, k) || c.slow.profileChoices == ChoicesAt(t).value ==> OffersHonoured(t, c, k)
  {
    hide HasValue, ChoicesAt, PowerSourceOf, IsOld, Snapshot, LetsThrough, TurnsAway, ProfilePart, Settings, Keyboard,
         SlowDegraded, VersionAt, Permitted;
    var cached, now, power := SlowNow(t, c, k).profileChoices, ChoicesAt(t).value, PowerSourceOf(t);
    var (s, after) := Snapshot(t, c, k);
    SnapshotKeepsCaps(t, c, k);
    forall value
      ensures (if HasValue(s.profile.available, value) then LetsThrough(t, after, value)
               else TurnsAway(t, after, value)) <==>
              (HasValue(PROFILE_OPTIONS, value) ==> (IsOffered(value, cached, power) <==> IsOffered(value, now, power)))
    {
      SetProfileMeaning(t, after, value);
      AvailableMeaning(t, c, k, value);
      LetsThroughOrNot(t, after, value);
    }
    OptionsAgree(cached, now, power);
  }

  lemma SnapshotKeepsCaps(t: Tree, c: Core, k: Ticks)
    ensures Snapshot(t, c, k).1.caps == c.caps
  {}

  /** Both lists offer the same options. */
  ghost predicate OffersAgree(cached: seq<string>, now: seq<string>, power: PowerSource) {
    forall value :: HasValue(PROFILE_OPTIONS, value) ==>
      (IsOffered(value, cached, power) <==> IsOffered(value, now, power))
  }

  lemma OptionsAgree(cached: seq<string>, now: seq<string>, power: PowerSource)
    ensures ChoicesAgree(cached, now, power) <==> OffersAgree(cached, now, power)
  {
    hide Permitted;
    if OffersAgree(cached, now, power) {
      forall i | 0 <= i < |PROFILE_OPTIONS| && Permitted(PROFILE_OPTIONS[i].value, power)
        ensures PROFILE_OPTIONS[i].value in cached <==> PROFILE_OPTIONS[i].value in now
      {
        assert HasValue(PROFILE_OPTIONS, PROFILE_OPTIONS[i].value);
      }
    }
  }

  /** The position of an option in the fixed order. */
  function Place(value: string): nat {
    if value == "low-power" then 0
    else if value == "quiet" then 1
    else if value == "balanced" then 2
    else if value == "balanced-performance" then 3
    else if value == "performance" then 4
    else 5
  }

  /** The options come in the fixed order, which leaves no room for a duplicate. */
  ghost predicate InOrder(options: seq<ProfileOption>) {
    forall i, j :: 0 <= i < j < |options| ==> Place(options[i].value) < Place(options[j].value)
  }

  lemma {:induction false} OfferedInOrder(options: seq<ProfileOption>, choices: seq<string>, power: PowerSource)
    requires InOrder(options)
    ensures var offered := Offered(options, choices, power);
            InOrder(offered) && forall o :: o in offered ==> o in options
  {
    hide IsOffered, Place;
    if options != [] {
      var before := options[..|options| - 1];
      OfferedInOrder(before, choices, power);
      var kept := Offered(before, choices, power);
      forall i | 0 <= i < |kept| ensures Place(kept[i].value) < Place(options[|options| - 1].value) {
        assert kept[i] in before;
        var p :| 0 <= p < |before| && before[p] == kept[i];
        assert options[p] == kept[i];
      }
    }
  }

  /** Every snapshot lists its profiles in the fixed order, each once, under its usual name. */
  lemma AvailableInOrder(t: Tree, c: Core, k: Ticks)
    ensures var available := Snapshot(t, c, k).0.profile.available;
            InOrder(available) && forall o :: o in available ==> o in PROFILE_OPTIONS
  {
    hide Offered, PowerSourceOf, ReadFans, ReadTemperatures, SlowNow, ProfileAt, FanPart, FastDegraded, InOrder;
    assert InOrder(PROFILE_OPTIONS) by { OptionsInOrder(); }
    OfferedInOrder(PROFILE_OPTIONS, SlowNow(t, c, k).profileChoices, PowerSourceOf(t));
    EmptyInOrder();
  }

  lemma OptionsInOrder()
    ensures InOrder(PROFILE_OPTIONS)
  {}

  lemma EmptyInOrder()
    ensures InOrder([])
  {}

  // ----- manual fans -----

  /** No valid fan request is refused for a conflict with the profile, unless it asks for auto. */
  ghost predicate NoConflict(t: Tree, c: Core) {
    forall setting: FanSetting, confirmed, k, w :: setting.Valid() && !IsAuto(setting) ==>
      SetFans(t, c, k, setting, confirmed, w).result != Err(Conflict)
  }

  lemma NoConflictMeaning(t: Tree, c: Core)
    requires c.caps.fanControl
    ensures NoConflict(t, c) <==> ProfileAt(t) != Some("quiet")
  {
    hide ProfileAt, Snapshot, FanSetting.ToText;
    if ProfileAt(t) == Some("quiet") {
      var setting, k, w := FanSetting(50, 50), Ticks(0, 0, 0), WriteResult(true, t);
      assert setting.Valid() && !IsAuto(setting);
      assert SetFans(t, c, k, setting, true, w).result == Err(Conflict);
    }
  }

  /** manualAllowed tells whether a request would meet a conflict exactly when: the fan speeds
      were read, and the profile was probed or is not quiet; or they were not, and it is quiet. */
  lemma ManualAllowedMeaning(t: Tree, c: Core, k: Ticks)
    requires c.caps.fanControl
    ensures var (s, after) := Snapshot(t, c, k);
            (s.fans.manualAllowed <==> NoConflict(t, after)) <==>
            (if FansAt(t).Some? then c.caps.thermalProfile || ProfileAt(t) != Some("quiet")
             else ProfileAt(t) == Some("quiet"))
  {
    hide NoConflict, ProfileAt, FansAt, ReadFans, ReadTemperatures, SlowNow, ProfilePart, FastDegraded, PowerSourceOf;
    NoConflictMeaning(t, Snapshot(t, c, k).1);
  }

  /** A machine in Silent mode that has no list of profile choices. */
  function SilentTree(): Tree {
    Tree(map[Fixed(Attribute.FanSpeed) := Node(FanSetting(50, 50).ToText(), true),
             Fixed(Attribute.PlatformProfile) := Node("quiet", true)], None, None, map[])
  }

  /** There, a fresh controller announces manual fans and refuses them. */
  lemma UnprobedProfileMisleads(k: Ticks)
    ensures var t := SilentTree();
            var (s, after) := Snapshot(t, NewCore(t), k);
            s.fans.manualAllowed && !NoConflict(t, after)
  {
    hide NoConflict, ReadFans, ReadTemperatures, Resolve, SlowNow, ProfilePart, FastDegraded, PowerSourceOf,
         ParseFanSetting, FanSetting.ToText, TrimSpace, IsTrimmed;
    var t, setting := SilentTree(), FanSetting(50, 50);
    FanRoundTrip(setting);
    TrimSpacePadded("", setting.ToText(), "");
    assert "" + setting.ToText() + "" == setting.ToText();
    QuietIsTrimmed();
    ManualAllowedMeaning(t, NewCore(t), k);
    NoConflictMeaning(t, Snapshot(t, NewCore(t), k).1);
  }

  lemma QuietIsTrimmed()
    ensures TrimSpace("quiet") == "quiet"
  {
    TrimSpacePadded("", "quiet", "");
    assert "" + "quiet" + "" == "quiet";
  }
}
