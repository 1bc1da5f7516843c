/**
 * The textual patch the build handler applies to the scaffolded config.xml:
 * the app name goes into the first `<name>…</name>` element, and a block of
 * preference elements goes in front of the first `</widget>`.
 */
module Manifest {
  import opened Wrappers
  import opened JsString
  import opened Config

  const NameOpen := "<name>"
  const NameClose := "</name>"
  const WidgetClose := "</widget>"

  // ---------------------------------------------------------------------
  // The app-name pattern /<name>.*?<\/name>/
  // ---------------------------------------------------------------------

  /** The characters that `.` of a JavaScript regular expression (without the `s` flag) does not match. */
  predicate IsLineTerminator(c: char) {
    c == '\n' || c == '\r' || c == '\U{2028}' || c == '\U{2029}'
  }

  /** No character of s[lo..hi] is a line terminator. */
  predicate LineFree(s: string, lo: nat, hi: nat)
    requires lo <= hi <= |s|
  {
    forall k :: lo <= k < hi ==> !IsLineTerminator(s[k])
  }

  /** s[i..e] matches /<name>.*?<\/name>/ (any match, not yet the one the engine reports). */
  ghost predicate IsNameMatch(s: string, i: nat, e: nat) {
    i + |NameOpen| + |NameClose| <= e <= |s|
    && OccursAt(s, NameOpen, i)
    && OccursAt(s, NameClose, e - |NameClose|)
    && LineFree(s, i + |NameOpen|, e - |NameClose|)
  }

  /** The match a backtracking engine reports: the leftmost start, then the shortest end (`.*?` is lazy). */
  ghost predicate IsFirstNameMatch(s: string, i: nat, e: nat) {
    IsNameMatch(s, i, e)
    && (forall i': nat, e': nat :: i' < i ==> !IsNameMatch(s, i', e'))
    && (forall e': nat :: e' < e ==> !IsNameMatch(s, i, e'))
  }

  /** A match of the pattern, as the half-open range s[start..end]. */
  datatype Span = Span(start: nat, end: nat)

  /** The end of the shortest match starting at `i`, if the pattern matches there. */
  function NameMatchAt(s: string, i: nat): (r: Option<nat>)
    ensures r.Some? ==> IsNameMatch(s, i, r.value)
    ensures r.Some? ==> forall e: nat :: e < r.value ==> !IsNameMatch(s, i, e)
    ensures r.None? ==> forall e: nat :: !IsNameMatch(s, i, e)
  {
    if !OccursAt(s, NameOpen, i) then None
    else
      match FirstOccurrence(s, NameClose, i + |NameOpen|)
      case None => None
      case Some(j) =>
        if LineFree(s, i + |NameOpen|, j) then Some(j + |NameClose|) else None
  }

  /** The leftmost, shortest match that starts at or after `from`. */
  function FirstNameMatch(s: string, from: nat): (r: Option<Span>)
    ensures r.Some? ==> from <= r.value.start && IsNameMatch(s, r.value.start, r.value.end)
    ensures r.Some? ==> forall e: nat :: e < r.value.end ==> !IsNameMatch(s, r.value.start, e)
    ensures r.Some? ==> forall i: nat, e: nat :: from <= i < r.value.start ==> !IsNameMatch(s, i, e)
    ensures r.None? ==> forall i: nat, e: nat :: from <= i ==> !IsNameMatch(s, i, e)
    decreases |s| - from
  {
    if |s| < from + |NameOpen| + |NameClose| then None
    else
      match NameMatchAt(s, from)
      case Some(e) => Some(Span(from, e))
      case None => FirstNameMatch(s, from + 1)
  }

  /** `configXml.replace(/<name>.*?<\/name>/, `<name>${appName}</name>`)`. */
  function PatchName(s: string, appName: string): string {
    match FirstNameMatch(s, 0)
    case None => s
    case Some(m) =>
      s[..m.start]
      + Substitute(NameOpen + appName + NameClose, s[m.start..m.end], s[..m.start], s[m.end..])
      + s[m.end..]
  }

  /** A text in which the pattern does not match is left unchanged. */
  lemma NamePatchNoMatch(s: string, appName: string)
    requires forall i: nat, e: nat :: !IsNameMatch(s, i, e)
    ensures PatchName(s, appName) == s
  {
  }

  /**
   * For an app name without `$`, exactly the first match becomes
   * `<name>appName</name>`, with everything before and after it unchanged.
   */
  lemma NamePatch(s: string, appName: string, i: nat, e: nat)
    requires IsFirstNameMatch(s, i, e)
    requires '$' !in appName
    ensures PatchName(s, appName) == s[..i] + (NameOpen + appName + NameClose) + s[e..]
  {
    FirstNameMatchIs(s, i, e);
    assert '$' !in NameOpen + appName + NameClose;
    SubstituteLiteral(NameOpen + appName + NameClose, s[i..e], s[..i], s[e..]);
  }

  /** `FirstNameMatch` finds the leftmost, shortest match, which is unique. */
  lemma FirstNameMatchIs(s: string, i: nat, e: nat)
    requires IsFirstNameMatch(s, i, e)
    ensures FirstNameMatch(s, 0) == Some(Span(i, e))
  {
    var m := FirstNameMatch(s, 0).value;
    assert !(i < m.start) && !(m.start < i);
    assert !(e < m.end) && !(m.end < e);
  }

  /**
   * The replacement string is not literal: `$&` in the app name stands for
   * the matched text, so the whole old element ends up inside the new one.
   */
  lemma NameDollarAmpersand(s: string, i: nat, e: nat, a: string, b: string)
    requires IsFirstNameMatch(s, i, e)
    requires '$' !in a && '$' !in b
    ensures PatchName(s, a + "$&" + b) == s[..i] + (NameOpen + a + s[i..e] + b + NameClose) + s[e..]
  {
    FirstNameMatchIs(s, i, e);
    var template := NameOpen + (a + "$&" + b) + NameClose;
    assert template == (NameOpen + a) + "$&" + (b + NameClose);
    SubstituteMatched(NameOpen + a, b + NameClose, s[i..e], s[..i], s[e..]);
    var mid := (NameOpen + a) + s[i..e] + (b + NameClose);
    assert PatchName(s, a + "$&" + b) == s[..i] + mid + s[e..];
    assert mid == NameOpen + a + s[i..e] + b + NameClose;
  }

  // ---------------------------------------------------------------------
  // The preference block
  // ---------------------------------------------------------------------

  /** One `<preference name="…" value="…" />` element. */
  datatype Preference = Preference(name: string, value: string)

  /** Where a preference name stands in the block's fixed order. */
  function Rank(name: string): nat {
    if name == "Orientation" then 0
    else if name == "Fullscreen" then 1
    else if name == "BackgroundColor" then 2
    else 3
  }

  /** The background colour the theme selects. */
  function BackgroundColor(theme: string): string {
    if theme == "dark" then "#000000" else "#FFFFFF"
  }

  /** The one preference a truthy field yields, or none. */
  function OptionalPreference(name: string, field: Setting): seq<Preference> {
    if field.Set? then [Preference(name, field.text)] else []
  }

  /** The background-colour preference a truthy theme yields, or none. */
  function ThemePreference(theme: Setting): seq<Preference> {
    if theme.Set? then [Preference("BackgroundColor", BackgroundColor(theme.text))] else []
  }

  /** The preferences in the order the handler appends them. */
  function Preferences(c: BuildConfig): seq<Preference> {
    OptionalPreference("Orientation", c.orientation)
    + OptionalPreference("Fullscreen", c.fullscreen)
    + ThemePreference(c.theme)
  }

  /**
   * The preferences the handler emits: orientation, fullscreen and a
   * theme-derived background colour, each exactly when its field is truthy,
   * in that fixed order; the colour is black exactly for the theme "dark",
   * and there is no preference at all when none of the fields is set.
   */
  lemma PreferencesSpec(c: BuildConfig)
    ensures forall j, k :: 0 <= j < k < |Preferences(c)| ==> Rank(Preferences(c)[j].name) < Rank(Preferences(c)[k].name)
    ensures forall p :: p in Preferences(c) ==> Rank(p.name) < 3
    ensures forall v :: Preference("Orientation", v) in Preferences(c) <==> c.orientation == Set(v)
    ensures forall v :: Preference("Fullscreen", v) in Preferences(c) <==> c.fullscreen == Set(v)
    ensures forall v :: Preference("BackgroundColor", v) in Preferences(c) <==> c.theme.Set? && v == BackgroundColor(c.theme.text)
    ensures Preference("BackgroundColor", "#000000") in Preferences(c) <==> c.theme == Set("dark")
    ensures Preferences(c) == [] <==> c.orientation.Unset? && c.fullscreen.Unset? && c.theme.Unset?
  {
  }

  function RenderPreference(p: Preference): string {
    "<preference name=\"" + p.name + "\" value=\"" + p.value + "\" />"
  }

  /** An element carries a `$` only through its name or its value. */
  lemma RenderPreferenceLiteral(p: Preference)
    requires '$' !in p.name && '$' !in p.value
    ensures '$' !in RenderPreference(p)
  {
    var open := "<preference name=\"";
    NoDollarAppend(open, p.name);
    NoDollarAppend(open + p.name, "\" value=\"");
    NoDollarAppend(open + p.name + "\" value=\"", p.value);
    NoDollarAppend(open + p.name + "\" value=\"" + p.value, "\" />");
  }

  /** The elements of `ps`, one after another. */
  function Render(ps: seq<Preference>): string {
    if ps == [] then "" else RenderPreference(ps[0]) + Render(ps[1..])
  }

  /** Rendering is compositional, so the block keeps the order of its preferences. */
  lemma {:induction false} RenderAppend(a: seq<Preference>, b: seq<Preference>)
    ensures Render(a + b) == Render(a) + Render(b)
    decreases |a|
  {
    if a != [] {
      assert (a + b)[0] == a[0];
      assert (a + b)[1..] == a[1..] + b;
      RenderAppend(a[1..], b);
    } else {
      assert a + b == b;
    }
  }

  /** The block is empty exactly when it has no preference. */
  lemma {:induction false} RenderEmpty(ps: seq<Preference>)
    ensures Render(ps) == "" <==> ps == []
  {
    if ps != [] {
      assert |RenderPreference(ps[0])| > 0;
    }
  }

  /** The preference text the handler appends before `</widget>`. */
  function PreferenceBlock(c: BuildConfig): string {
    Render(Preferences(c))
  }

  /** The block is the empty string exactly when none of the three fields is set. */
  lemma PreferenceBlockEmpty(c: BuildConfig)
    ensures PreferenceBlock(c) == "" <==> c.orientation.Unset? && c.fullscreen.Unset? && c.theme.Unset?
  {
    RenderEmpty(Preferences(c));
  }

  /** Builds the block with `+=`, one field at a time, as the handler does. */
  method BuildPreferences(c: BuildConfig) returns (block: string)
    ensures block == PreferenceBlock(c)
  {
    ghost var added: seq<Preference> := [];
    block := "";
    if c.orientation.Set? {
      var p := Preference("Orientation", c.orientation.text);
      AppendRendered(added, p);
      added, block := added + [p], block + RenderPreference(p);
    }
    assert added == OptionalPreference("Orientation", c.orientation) && block == Render(added);
    if c.fullscreen.Set? {
      var p := Preference("Fullscreen", c.fullscreen.text);
      AppendRendered(added, p);
      added, block := added + [p], block + RenderPreference(p);
    }
    assert added == OptionalPreference("Orientation", c.orientation) + OptionalPreference("Fullscreen", c.fullscreen);
    assert block == Render(added);
    if c.theme.Set? {
      var p := Preference("BackgroundColor", BackgroundColor(c.theme.text));
      AppendRendered(added, p);
      added, block := added + [p], block + RenderPreference(p);
    }
    assert added == Preferences(c);
  }

  lemma AppendRendered(ps: seq<Preference>, p: Preference)
    ensures Render(ps + [p]) == Render(ps) + RenderPreference(p)
  {
    RenderAppend(ps, [p]);
    assert [p][1..] == [];
  }

  // ---------------------------------------------------------------------
  // The whole patch
  // ---------------------------------------------------------------------

  /** `configXml.replace('</widget>', preferences + '</widget>')`. */
  function InsertPreferences(s: string, block: string): string {
    ReplaceFirst(s, WidgetClose, block + WidgetClose)
  }

  /**
   * For a block without `$`: the block lands immediately before the first
   * `</widget>`, and the text before it and from it on (later `</widget>`s
   * included) is unchanged.
   */
  lemma InsertPreferencesAt(s: string, block: string, i: nat)
    requires '$' !in block
    requires OccursAt(s, WidgetClose, i) && forall k: nat :: k < i ==> !OccursAt(s, WidgetClose, k)
    ensures InsertPreferences(s, block) == s[..i] + block + s[i..]
  {
    assert '$' !in block + WidgetClose;
    ReplaceFirstLiteral(s, WidgetClose, block + WidgetClose, i);
    assert s[i..] == WidgetClose + s[i + |WidgetClose|..];
  }

  /** A text without `</widget>` is left as it is. */
  lemma InsertPreferencesAbsent(s: string, block: string)
    requires forall k: nat :: !OccursAt(s, WidgetClose, k)
    ensures InsertPreferences(s, block) == s
  {
    ReplaceFirstAbsent(s, WidgetClose, block + WidgetClose);
  }

  /** An empty block leaves the text as it is. */
  lemma InsertEmptyBlock(s: string)
    ensures InsertPreferences(s, "") == s
  {
    match FirstOccurrence(s, WidgetClose, 0)
    case None =>
    case Some(i) =>
      InsertPreferencesAt(s, "", i);
      assert s == s[..i] + s[i..];
  }

  /** No `$` reaches the block when orientation and fullscreen have none. */
  lemma PreferenceBlockLiteral(c: BuildConfig)
    requires c.orientation.Set? ==> '$' !in c.orientation.text
    requires c.fullscreen.Set? ==> '$' !in c.fullscreen.text
    ensures '$' !in PreferenceBlock(c)
  {
    var o := OptionalPreference("Orientation", c.orientation);
    var f := OptionalPreference("Fullscreen", c.fullscreen);
    var t := ThemePreference(c.theme);
    RenderAppend(o + f, t);
    RenderAppend(o, f);
    OptionalLiteral("Orientation", c.orientation);
    OptionalLiteral("Fullscreen", c.fullscreen);
    ThemeLiteral(c.theme);
  }

  lemma OptionalLiteral(name: string, field: Setting)
    requires name == "Orientation" || name == "Fullscreen"
    requires field.Set? ==> '$' !in field.text
    ensures '$' !in Render(OptionalPreference(name, field))
  {
    if field.Set? {
      var p := Preference(name, field.text);
      assert [p][1..] == [];
      RenderPreferenceLiteral(p);
    }
  }

  lemma ThemeLiteral(theme: Setting)
    ensures '$' !in Render(ThemePreference(theme))
  {
    if theme.Set? {
      var p := Preference("BackgroundColor", BackgroundColor(theme.text));
      assert [p][1..] == [];
      RenderPreferenceLiteral(p);
    }
  }

  /** The patched config.xml: first the name, then the preferences. */
  function PatchManifest(s: string, c: BuildConfig): string {
    InsertPreferences(PatchName(s, c.appName), PreferenceBlock(c))
  }
}
