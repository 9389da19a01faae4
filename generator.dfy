/**
 Test-variant expander of the Playwright test utilities.

 Given an optional selection of modes, directions and themes, `Configs`
 builds every (mode, direction, theme) combination in the order
 mode -> direction -> theme, and attaches to each one a title namer and a
 screenshot namer bound to that combination.
 */
module Generator {

  // ---------------------------------------------------------------------
  // Data model
  // ---------------------------------------------------------------------

  /** The design system a component renders under. */
  datatype Mode = Ios | Md

  /** Text and layout direction. */
  datatype Direction = Ltr | Rtl

  /** Colour scheme. */
  datatype Theme = Light | Dark

  /** One concrete test variant. */
  datatype TestConfig = TestConfig(mode: Mode, direction: Direction, theme: Theme)

  datatype Option<T> = None | Some(value: T)

  /** The caller's selection: every dimension may be left out (`None`). */
  datatype TestConfigOption = TestConfigOption(
    modes: Option<seq<Mode>>,
    directions: Option<seq<Direction>>,
    themes: Option<seq<Theme>>)

  /**
   The descriptor handed to a test. The title and screenshot namers are
   the functions `Title` and `Screenshot` below, which read only `config`.
   */
  datatype TestUtilities = TestUtilities(config: TestConfig)

  // ---------------------------------------------------------------------
  // String forms of the dimension values
  // ---------------------------------------------------------------------

  function ModeName(m: Mode): string {
    match m
    case Ios => "ios"
    case Md => "md"
  }

  function DirectionName(d: Direction): string {
    match d
    case Ltr => "ltr"
    case Rtl => "rtl"
  }

  function ThemeName(t: Theme): string {
    match t
    case Light => "light"
    case Dark => "dark"
  }

  predicate StartsWith(s: string, prefix: string) {
    |prefix| <= |s| && s[..|prefix|] == prefix
  }

  predicate EndsWith(s: string, suffix: string) {
    |suffix| <= |s| && s[|s| - |suffix|..] == suffix
  }

  // ---------------------------------------------------------------------
  // Naming
  // ---------------------------------------------------------------------

  /** The test title: `<title> - <mode>/<direction>/<theme>`. */
  function GenerateTitle(title: string, config: TestConfig): (r: string)
    ensures StartsWith(r, title + " - ")
    ensures EndsWith(r, "/" + ThemeName(config.theme))
  {
    title + " - " + ModeName(config.mode) + "/" + DirectionName(config.direction)
      + "/" + ThemeName(config.theme)
  }

  /**
   The screenshot file name: `<fileName>-<mode>-<direction>-dark.png` for the
   dark theme, `<fileName>-<mode>-<direction>.png` for the light theme.
   */
  function GenerateScreenshotName(fileName: string, config: TestConfig): (r: string)
    ensures StartsWith(r, fileName + "-" + ModeName(config.mode) + "-" + DirectionName(config.direction))
    ensures EndsWith(r, ".png")
  {
    if config.theme == Dark then
      fileName + "-" + ModeName(config.mode) + "-" + DirectionName(config.direction) + "-dark.png"
    else
      fileName + "-" + ModeName(config.mode) + "-" + DirectionName(config.direction) + ".png"
  }

  /** The descriptor's title namer: it names the descriptor's own variant. */
  function Title(u: TestUtilities, title: string): (r: string)
    ensures r == title + " - " + ModeName(u.config.mode) + "/" + DirectionName(u.config.direction)
                 + "/" + ThemeName(u.config.theme)
  {
    GenerateTitle(title, u.config)
  }

  /** The descriptor's screenshot namer: only a dark variant gets a theme suffix. */
  function Screenshot(u: TestUtilities, fileName: string): (r: string)
    ensures r == fileName + "-" + ModeName(u.config.mode) + "-" + DirectionName(u.config.direction)
                 + (if u.config.theme == Dark then "-dark.png" else ".png")
  {
    GenerateScreenshotName(fileName, u.config)
  }

  /** For a fixed base title, the title determines the variant and vice versa. */
  lemma TitleInjective(title: string, c1: TestConfig, c2: TestConfig)
    ensures GenerateTitle(title, c1) == GenerateTitle(title, c2) <==> c1 == c2
  {
    if GenerateTitle(title, c1) == GenerateTitle(title, c2) {
      var s := GenerateTitle(title, c1);
      var p := |title| + 3;
      assert s[p] == ModeName(c1.mode)[0] == ModeName(c2.mode)[0];
      var q := p + |ModeName(c1.mode)| + 1;
      assert s[q] == DirectionName(c1.direction)[0] == DirectionName(c2.direction)[0];
      var r := q + 4;
      assert s[r] == ThemeName(c1.theme)[0] == ThemeName(c2.theme)[0];
    }
  }

  /** For a fixed base file name, the screenshot name determines the variant and vice versa. */
  lemma ScreenshotInjective(fileName: string, c1: TestConfig, c2: TestConfig)
    ensures GenerateScreenshotName(fileName, c1) == GenerateScreenshotName(fileName, c2) <==> c1 == c2
  {
    if GenerateScreenshotName(fileName, c1) == GenerateScreenshotName(fileName, c2) {
      var s := GenerateScreenshotName(fileName, c1);
      var p := |fileName| + 1;
      assert s[p] == ModeName(c1.mode)[0] == ModeName(c2.mode)[0];
      var q := p + |ModeName(c1.mode)| + 1;
      assert s[q] == DirectionName(c1.direction)[0] == DirectionName(c2.direction)[0];
      assert |s| == q + 3 + (if c1.theme == Dark then 5 else 0) + 4;
      assert |s| == q + 3 + (if c2.theme == Dark then 5 else 0) + 4;
    }
  }

  /** Only a dark variant's screenshot name carries the `-dark.png` suffix. */
  lemma ScreenshotDarkSuffix(fileName: string, c: TestConfig)
    ensures EndsWith(GenerateScreenshotName(fileName, c), "-dark.png") <==> c.theme == Dark
  {
    var s := GenerateScreenshotName(fileName, c);
    var n := |s|;
    if c.theme == Dark {
      assert s[n - 9..] == "-dark.png";
    } else {
      assert s[n - 8] == '-';
      assert "-dark.png"[1] == 'd';
    }
  }

  // ---------------------------------------------------------------------
  // Default resolution
  // ---------------------------------------------------------------------

  const DefaultModes: seq<Mode> := [Ios, Md]
  const DefaultDirections: seq<Direction> := [Ltr, Rtl]
  const DefaultThemes: seq<Theme> := [Light]

  /** The selection used when `configs` is called without an argument. */
  const DefaultTestConfigOption: TestConfigOption :=
    TestConfigOption(Some(DefaultModes), Some(DefaultDirections), Some(DefaultThemes))

  /** Nullish coalescing: a supplied list is kept, even when empty. */
  function Resolve<T>(field: Option<seq<T>>, default: seq<T>): (r: seq<T>)
    ensures field.Some? ==> r == field.value
    ensures field.None? ==> r == default
  {
    match field
    case Some(s) => s
    case None => default
  }

  function ResolvedModes(opt: TestConfigOption): (r: seq<Mode>)
    ensures opt.modes == None ==> r == [Ios, Md]
    ensures opt.modes != None ==> r == opt.modes.value
  {
    Resolve(opt.modes, DefaultModes)
  }

  function ResolvedDirections(opt: TestConfigOption): (r: seq<Direction>)
    ensures opt.directions == None ==> r == [Ltr, Rtl]
    ensures opt.directions != None ==> r == opt.directions.value
  {
    Resolve(opt.directions, DefaultDirections)
  }

  function ResolvedThemes(opt: TestConfigOption): (r: seq<Theme>)
    ensures opt.themes == None ==> r == [Light]
    ensures opt.themes != None ==> r == opt.themes.value
  {
    Resolve(opt.themes, DefaultThemes)
  }

  // ---------------------------------------------------------------------
  // Cross product, specified from the end so that it grows like the loops
  // ---------------------------------------------------------------------

  /** The variants for one mode and one direction, theme by theme. */
  function ThemeRow(m: Mode, d: Direction, ts: seq<Theme>): seq<TestConfig>
    decreases |ts|
  {
    if |ts| == 0 then []
    else ThemeRow(m, d, ts[..|ts| - 1]) + [TestConfig(m, d, ts[|ts| - 1])]
  }

  /** The variants for one mode, direction by direction. */
  function DirectionBlock(m: Mode, ds: seq<Direction>, ts: seq<Theme>): seq<TestConfig>
    decreases |ds|
  {
    if |ds| == 0 then []
    else DirectionBlock(m, ds[..|ds| - 1], ts) + ThemeRow(m, ds[|ds| - 1], ts)
  }

  /** All variants, mode by mode. */
  function CrossProduct(ms: seq<Mode>, ds: seq<Direction>, ts: seq<Theme>): seq<TestConfig>
    decreases |ms|
  {
    if |ms| == 0 then []
    else CrossProduct(ms[..|ms| - 1], ds, ts) + DirectionBlock(ms[|ms| - 1], ds, ts)
  }

  /** The variants `configs` produces for a selection. */
  function Variants(opt: TestConfigOption): (r: seq<TestConfig>)
    ensures NestedOrder(r, ResolvedModes(opt), ResolvedDirections(opt), ResolvedThemes(opt))
  {
    CrossProductShape(ResolvedModes(opt), ResolvedDirections(opt), ResolvedThemes(opt));
    CrossProduct(ResolvedModes(opt), ResolvedDirections(opt), ResolvedThemes(opt))
  }

  /** The final `map` step: one descriptor per variant, in the same order. */
  function Describe(cs: seq<TestConfig>): (r: seq<TestUtilities>)
    ensures |r| == |cs|
    ensures forall n :: 0 <= n < |cs| ==> r[n].config == cs[n]
  {
    seq(|cs|, n requires 0 <= n < |cs| => TestUtilities(cs[n]))
  }

  // ---------------------------------------------------------------------
  // Positions in the nested enumeration
  // ---------------------------------------------------------------------

  lemma MulSucc(a: nat, b: nat)
    ensures (a + 1) * b == a * b + b
  {
  }

  lemma MulStep(a: nat, b: nat, n: nat)
    requires a < n
    ensures a * b + b <= n * b
  {
    MulSucc(a, b);
  }

  /** Position of theme `k` of direction `j` inside one mode's block. */
  function Offset(j: nat, k: nat, nd: nat, nt: nat): (n: nat)
    requires j < nd && k < nt
    ensures n < nd * nt
  {
    MulStep(j, nt, nd);
    j * nt + k
  }

  /**
   Position of the variant (mode i, direction j, theme k) in the enumeration
   of nm * nd * nt variants: i * nd * nt + j * nt + k.
   */
  function Position(i: nat, j: nat, k: nat, nm: nat, nd: nat, nt: nat): (n: nat)
    requires i < nm && j < nd && k < nt
    ensures n < nm * (nd * nt)
  {
    MulStep(i, nd * nt, nm);
    i * (nd * nt) + Offset(j, k, nd, nt)
  }

  /**
   Reference definition of the nested order: `cs` holds exactly
   |ms| * |ds| * |ts| variants, and (ms[i], ds[j], ts[k]) sits at
   Position(i, j, k).
   */
  predicate NestedOrder(cs: seq<TestConfig>, ms: seq<Mode>, ds: seq<Direction>, ts: seq<Theme>) {
    && |cs| == |ms| * (|ds| * |ts|)
    && forall i, j, k :: 0 <= i < |ms| && 0 <= j < |ds| && 0 <= k < |ts| ==>
         cs[Position(i, j, k, |ms|, |ds|, |ts|)] == TestConfig(ms[i], ds[j], ts[k])
  }

  lemma {:induction false} ThemeRowShape(m: Mode, d: Direction, ts: seq<Theme>)
    ensures |ThemeRow(m, d, ts)| == |ts|
    ensures forall k :: 0 <= k < |ts| ==> ThemeRow(m, d, ts)[k] == TestConfig(m, d, ts[k])
  {
    if |ts| > 0 {
      ThemeRowShape(m, d, ts[..|ts| - 1]);
    }
  }

  /** Indexing into `front + block` where `front` is made of `n` blocks of `width` entries. */
  lemma AppendBlockAt<T>(front: seq<T>, block: seq<T>, n: nat, width: nat, i: nat, off: nat)
    requires |front| == n * width && off < width && i <= n
    ensures i < n ==> i * width + off < |front| && (front + block)[i * width + off] == front[i * width + off]
    ensures i == n && off < |block| ==> (front + block)[i * width + off] == block[off]
  {
    if i < n {
      MulStep(i, width, n);
    }
  }

  lemma {:induction false} DirectionBlockShape(m: Mode, ds: seq<Direction>, ts: seq<Theme>)
    ensures |DirectionBlock(m, ds, ts)| == |ds| * |ts|
    ensures forall j, k :: 0 <= j < |ds| && 0 <= k < |ts| ==>
              DirectionBlock(m, ds, ts)[Offset(j, k, |ds|, |ts|)] == TestConfig(m, ds[j], ts[k])
  {
    if |ds| > 0 {
      var n, width := |ds| - 1, |ts|;
      var front, row := DirectionBlock(m, ds[..n], ts), ThemeRow(m, ds[n], ts);
      DirectionBlockShape(m, ds[..n], ts);
      ThemeRowShape(m, ds[n], ts);
      MulSucc(n, width);
      forall j, k | 0 <= j < |ds| && 0 <= k < width
        ensures DirectionBlock(m, ds, ts)[Offset(j, k, |ds|, width)] == TestConfig(m, ds[j], ts[k])
      {
        AppendBlockAt(front, row, n, width, j, k);
        if j < n {
          assert Offset(j, k, |ds|, width) == Offset(j, k, n, width);
        }
      }
    }
  }

  /** The recursive cross product enumerates in exactly the nested order. */
  lemma {:induction false} CrossProductShape(ms: seq<Mode>, ds: seq<Direction>, ts: seq<Theme>)
    ensures NestedOrder(CrossProduct(ms, ds, ts), ms, ds, ts)
  {
    if |ms| > 0 {
      var n, width := |ms| - 1, |ds| * |ts|;
      var front, block := CrossProduct(ms[..n], ds, ts), DirectionBlock(ms[n], ds, ts);
      CrossProductShape(ms[..n], ds, ts);
      DirectionBlockShape(ms[n], ds, ts);
      MulSucc(n, width);
      forall i, j, k | 0 <= i < |ms| && 0 <= j < |ds| && 0 <= k < |ts|
        ensures CrossProduct(ms, ds, ts)[Position(i, j, k, |ms|, |ds|, |ts|)] == TestConfig(ms[i], ds[j], ts[k])
      {
        AppendBlockAt(front, block, n, width, i, Offset(j, k, |ds|, |ts|));
        if i < n {
          assert Position(i, j, k, |ms|, |ds|, |ts|) == Position(i, j, k, n, |ds|, |ts|);
        }
      }
    }
  }

  lemma {:induction false} ThemeRowMembers(m: Mode, d: Direction, ts: seq<Theme>, c: TestConfig)
    ensures c in ThemeRow(m, d, ts) <==> c.mode == m && c.direction == d && c.theme in ts
  {
    if |ts| > 0 {
      var n := |ts| - 1;
      ThemeRowMembers(m, d, ts[..n], c);
      assert ts == ts[..n] + [ts[n]];
      assert c in ThemeRow(m, d, ts)
        <==> c in ThemeRow(m, d, ts[..n]) || c == TestConfig(m, d, ts[n]);
    }
  }

  lemma {:induction false} DirectionBlockMembers(m: Mode, ds: seq<Direction>, ts: seq<Theme>, c: TestConfig)
    ensures c in DirectionBlock(m, ds, ts) <==> c.mode == m && c.direction in ds && c.theme in ts
  {
    if |ds| > 0 {
      var n := |ds| - 1;
      DirectionBlockMembers(m, ds[..n], ts, c);
      ThemeRowMembers(m, ds[n], ts, c);
      assert ds == ds[..n] + [ds[n]];
      assert c in DirectionBlock(m, ds, ts)
        <==> c in DirectionBlock(m, ds[..n], ts) || c in ThemeRow(m, ds[n], ts);
    }
  }

  /** A variant is produced exactly when each of its values was selected. */
  lemma {:induction false} CrossProductMembers(ms: seq<Mode>, ds: seq<Direction>, ts: seq<Theme>, c: TestConfig)
    ensures c in CrossProduct(ms, ds, ts) <==> c.mode in ms && c.direction in ds && c.theme in ts
  {
    if |ms| > 0 {
      var n := |ms| - 1;
      CrossProductMembers(ms[..n], ds, ts, c);
      DirectionBlockMembers(ms[n], ds, ts, c);
      assert ms == ms[..n] + [ms[n]];
      assert c in CrossProduct(ms, ds, ts)
        <==> c in CrossProduct(ms[..n], ds, ts) || c in DirectionBlock(ms[n], ds, ts);
    }
  }

  // ---------------------------------------------------------------------
  // Distinctness
  // ---------------------------------------------------------------------

  predicate Distinct<T(==)>(s: seq<T>) {
    forall a, b :: 0 <= a < b < |s| ==> s[a] != s[b]
  }

  lemma DistinctAppend<T>(s: seq<T>, t: seq<T>)
    requires Distinct(s) && Distinct(t)
    requires forall x :: x in s ==> x !in t
    ensures Distinct(s + t)
  {
    forall a, b | 0 <= a < b < |s + t|
      ensures (s + t)[a] != (s + t)[b]
    {
      if a < |s| && |s| <= b {
        assert (s + t)[a] in s;
        assert (s + t)[b] in t;
      }
    }
  }

  lemma {:induction false} ThemeRowDistinct(m: Mode, d: Direction, ts: seq<Theme>)
    requires Distinct(ts)
    ensures Distinct(ThemeRow(m, d, ts))
  {
    if |ts| > 0 {
      var n := |ts| - 1;
      ThemeRowDistinct(m, d, ts[..n]);
      ThemeRowMembers(m, d, ts[..n], TestConfig(m, d, ts[n]));
      DistinctAppend(ThemeRow(m, d, ts[..n]), [TestConfig(m, d, ts[n])]);
    }
  }

  lemma {:induction false} DirectionBlockDistinct(m: Mode, ds: seq<Direction>, ts: seq<Theme>)
    requires Distinct(ds) && Distinct(ts)
    ensures Distinct(DirectionBlock(m, ds, ts))
  {
    if |ds| > 0 {
      var n := |ds| - 1;
      DirectionBlockDistinct(m, ds[..n], ts);
      ThemeRowDistinct(m, ds[n], ts);
      forall c | c in DirectionBlock(m, ds[..n], ts)
        ensures c !in ThemeRow(m, ds[n], ts)
      {
        DirectionBlockMembers(m, ds[..n], ts, c);
        ThemeRowMembers(m, ds[n], ts, c);
      }
      DistinctAppend(DirectionBlock(m, ds[..n], ts), ThemeRow(m, ds[n], ts));
    }
  }

  /** Without repeated selections there are no repeated variants. */
  lemma {:induction false} CrossProductDistinct(ms: seq<Mode>, ds: seq<Direction>, ts: seq<Theme>)
    requires Distinct(ms) && Distinct(ds) && Distinct(ts)
    ensures Distinct(CrossProduct(ms, ds, ts))
  {
    if |ms| > 0 {
      var n := |ms| - 1;
      CrossProductDistinct(ms[..n], ds, ts);
      DirectionBlockDistinct(ms[n], ds, ts);
      forall c | c in CrossProduct(ms[..n], ds, ts)
        ensures c !in DirectionBlock(ms[n], ds, ts)
      {
        CrossProductMembers(ms[..n], ds, ts, c);
        DirectionBlockMembers(ms[n], ds, ts, c);
      }
      DistinctAppend(CrossProduct(ms[..n], ds, ts), DirectionBlock(ms[n], ds, ts));
    }
  }

  // ---------------------------------------------------------------------
  // The expander
  // ---------------------------------------------------------------------

  lemma ThemeRowStep(m: Mode, d: Direction, ts: seq<Theme>, k: nat)
    requires k < |ts|
    ensures ThemeRow(m, d, ts[..k + 1]) == ThemeRow(m, d, ts[..k]) + [TestConfig(m, d, ts[k])]
  {
    assert ts[..k + 1][..k] == ts[..k];
  }

  lemma DirectionBlockStep(m: Mode, ds: seq<Direction>, ts: seq<Theme>, j: nat)
    requires j < |ds|
    ensures DirectionBlock(m, ds[..j + 1], ts) == DirectionBlock(m, ds[..j], ts) + ThemeRow(m, ds[j], ts)
  {
    assert ds[..j + 1][..j] == ds[..j];
  }

  lemma CrossProductStep(ms: seq<Mode>, ds: seq<Direction>, ts: seq<Theme>, i: nat)
    requires i < |ms|
    ensures CrossProduct(ms[..i + 1], ds, ts) == CrossProduct(ms[..i], ds, ts) + DirectionBlock(ms[i], ds, ts)
  {
    assert ms[..i + 1][..i] == ms[..i];
  }

  /** The innermost loop: push one variant per theme, for a fixed mode and direction. */
  method PushThemes(configs: seq<TestConfig>, mode: Mode, direction: Direction, themes: seq<Theme>)
    returns (pushed: seq<TestConfig>)
    ensures pushed == configs + ThemeRow(mode, direction, themes)
  {
    pushed := configs;
    for k := 0 to |themes|
      invariant pushed == configs + ThemeRow(mode, direction, themes[..k])
    {
      pushed := pushed + [TestConfig(mode, direction, themes[k])];
      ThemeRowStep(mode, direction, themes, k);
    }
    assert themes[..|themes|] == themes;
  }

  /** The middle loop: for a fixed mode, run the theme loop once per direction. */
  method PushDirections(configs: seq<TestConfig>, mode: Mode, directions: seq<Direction>, themes: seq<Theme>)
    returns (pushed: seq<TestConfig>)
    ensures pushed == configs + DirectionBlock(mode, directions, themes)
  {
    pushed := configs;
    for j := 0 to |directions|
      invariant pushed == configs + DirectionBlock(mode, directions[..j], themes)
    {
      pushed := PushThemes(pushed, mode, directions[j], themes);
      DirectionBlockStep(mode, directions, themes, j);
    }
    assert directions[..|directions|] == directions;
  }

  /**
   The outer loop of `configs`: mode outermost, so the variants come out
   mode by mode, then direction by direction, then theme by theme.
   */
  method Expand(modes: seq<Mode>, directions: seq<Direction>, themes: seq<Theme>)
    returns (configs: seq<TestConfig>)
    ensures configs == CrossProduct(modes, directions, themes)
  {
    configs := [];
    for i := 0 to |modes|
      invariant configs == CrossProduct(modes[..i], directions, themes)
    {
      configs := PushDirections(configs, modes[i], directions, themes);
      CrossProductStep(modes, directions, themes, i);
    }
    assert modes[..|modes|] == modes;
  }

  /**
   Resolves each dimension, expands the variants and wraps each in a
   descriptor bound to its own config.
   */
  method Configs(testConfig: TestConfigOption) returns (utilities: seq<TestUtilities>)
    ensures utilities == Describe(Variants(testConfig))
    ensures NestedOrder(Variants(testConfig), ResolvedModes(testConfig),
                        ResolvedDirections(testConfig), ResolvedThemes(testConfig))
  {
    var modes := ResolvedModes(testConfig);
    var directions := ResolvedDirections(testConfig);
    var themes := ResolvedThemes(testConfig);
    var configs := Expand(modes, directions, themes);
    utilities := Describe(configs);
    CrossProductShape(modes, directions, themes);
  }

  // ---------------------------------------------------------------------
  // Properties of the expander
  // ---------------------------------------------------------------------

  /** Calling without a selection, or with no field set, gives the four default variants. */
  lemma DefaultVariants()
    ensures Variants(TestConfigOption(None, None, None))
            == [TestConfig(Ios, Ltr, Light), TestConfig(Ios, Rtl, Light),
                TestConfig(Md, Ltr, Light), TestConfig(Md, Rtl, Light)]
    ensures Variants(DefaultTestConfigOption) == Variants(TestConfigOption(None, None, None))
  {
    var ds, ts := DefaultDirections, DefaultThemes;
    assert ts[..0] == [] && ds[..0] == [] && DefaultModes[..0] == [];
    assert ds[..1] == [Ltr] && DefaultModes[..1] == [Ios];
    forall m: Mode, d: Direction
      ensures ThemeRow(m, d, ts) == [TestConfig(m, d, Light)]
    {
      assert ThemeRow(m, d, ts) == ThemeRow(m, d, []) + [TestConfig(m, d, Light)];
    }
    forall m: Mode
      ensures DirectionBlock(m, ds, ts) == [TestConfig(m, Ltr, Light), TestConfig(m, Rtl, Light)]
    {
      assert DirectionBlock(m, [Ltr], ts) == DirectionBlock(m, [], ts) + ThemeRow(m, Ltr, ts);
    }
    assert CrossProduct([Ios], ds, ts) == CrossProduct([], ds, ts) + DirectionBlock(Ios, ds, ts);
  }

  /** An explicitly empty dimension is not replaced by its default: nothing is generated. */
  lemma ExplicitEmptyIsKept(opt: TestConfigOption)
    requires opt.modes == Some([]) || opt.directions == Some([]) || opt.themes == Some([])
    ensures Variants(opt) == []
  {
  }

  /** Without a theme selection every variant is light: dark is never a default. */
  lemma DefaultThemeIsLight(opt: TestConfigOption)
    requires opt.themes == None
    ensures forall n :: 0 <= n < |Variants(opt)| ==> Variants(opt)[n].theme == Light
  {
    forall n | 0 <= n < |Variants(opt)|
      ensures Variants(opt)[n].theme == Light
    {
      CrossProductMembers(ResolvedModes(opt), ResolvedDirections(opt), ResolvedThemes(opt), Variants(opt)[n]);
    }
  }

  /**
   The descriptor at a variant's position names that variant: its title
   and screenshot name are built from its own mode, direction and theme.
   */
  lemma DescriptorNames(opt: TestConfigOption, i: nat, j: nat, k: nat, title: string, fileName: string)
    requires i < |ResolvedModes(opt)| && j < |ResolvedDirections(opt)| && k < |ResolvedThemes(opt)|
    ensures var ms, ds, ts := ResolvedModes(opt), ResolvedDirections(opt), ResolvedThemes(opt);
            var at := Position(i, j, k, |ms|, |ds|, |ts|);
            && at < |Variants(opt)|
            && var u := Describe(Variants(opt))[at];
            && Title(u, title)
               == title + " - " + ModeName(ms[i]) + "/" + DirectionName(ds[j]) + "/" + ThemeName(ts[k])
            && Screenshot(u, fileName)
               == fileName + "-" + ModeName(ms[i]) + "-" + DirectionName(ds[j])
                  + (if ts[k] == Dark then "-dark.png" else ".png")
  {
    CrossProductShape(ResolvedModes(opt), ResolvedDirections(opt), ResolvedThemes(opt));
  }

  /**
   When no dimension repeats a value, the descriptors have pairwise
   different titles and pairwise different screenshot names.
   */
  lemma NamesUnique(opt: TestConfigOption, title: string, fileName: string)
    requires Distinct(ResolvedModes(opt)) && Distinct(ResolvedDirections(opt)) && Distinct(ResolvedThemes(opt))
    ensures var us := Describe(Variants(opt));
            forall a, b :: 0 <= a < b < |us| ==>
              Title(us[a], title) != Title(us[b], title)
              && Screenshot(us[a], fileName) != Screenshot(us[b], fileName)
  {
    var vs := Variants(opt);
    CrossProductDistinct(ResolvedModes(opt), ResolvedDirections(opt), ResolvedThemes(opt));
    forall a, b | 0 <= a < b < |vs|
      ensures GenerateTitle(title, vs[a]) != GenerateTitle(title, vs[b])
      ensures GenerateScreenshotName(fileName, vs[a]) != GenerateScreenshotName(fileName, vs[b])
    {
      TitleInjective(title, vs[a], vs[b]);
      ScreenshotInjective(fileName, vs[a], vs[b]);
    }
  }
}
