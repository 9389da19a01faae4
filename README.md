# Playwright test-variant generator, modelled in Dafny

This project models `core/src/utils/test/playwright/generator.ts` of the Ionic
Framework. That file is the utility that expands one Playwright test into its
rendering variants.

A caller may select some of three dimensions:

- mode: `ios` or `md`;
- direction: `ltr` or `rtl`;
- theme: `light` or `dark`.

A dimension the caller leaves out falls back to its default list:
`[ios, md]`, `[ltr, rtl]` and `[light]`. `configs` then enumerates every
(mode, direction, theme) triple with three nested loops, mode outermost and
theme innermost. It wraps each triple in a descriptor. The descriptor carries
the triple, a title namer (`<title> - <mode>/<direction>/<theme>`) and a
screenshot namer (`<file>-<mode>-<direction>.png`, or
`<file>-<mode>-<direction>-dark.png` for the dark theme).

Everything lives in one module, `Generator` (`generator.dfy`):

- The three dimensions are closed datatypes, and their string forms are written out by hand.
- The caller's selection is `TestConfigOption`, a record with one `Option<seq<…>>` per dimension.
- `Resolve` models the `??` fallback.
- `ThemeRow`, `DirectionBlock` and `CrossProduct` give the pure specification of the three nested loops. Each grows at its end, the way the loops push.
- `Expand`, `PushDirections` and `PushThemes` are the imperative expander: one method per loop level, the inner two standing for the `forEach` callbacks. Each appends to the list being built and is proved equal to that specification.
- `Configs` resolves the selection, runs `Expand` and maps each variant to its descriptor.
- `NestedOrder` with `Position` is an independent reference definition of the order. It says the result has |modes| · |directions| · |themes| entries and that (modes[i], directions[j], themes[k]) sits at index i·|D|·|T| + j·|T| + k.
- A descriptor is the datatype `TestUtilities` holding its config. Its namers are the pure functions `Title` and `Screenshot`, which read only that config.

## Model

| member | source | states |
|---|---|---|
| `Generator.GenerateTitle` | core/src/utils/test/playwright/generator.ts:32-36 | the title starts with the base title followed by `" - "` and ends with `/` and the theme's name |
| `Generator.TitleInjective` | core/src/utils/test/playwright/generator.ts:26-36 | for a fixed base title, two configs give the same title if and only if they are the same (mode, direction, theme): titles are unique per variant |
| `Generator.GenerateScreenshotName` | core/src/utils/test/playwright/generator.ts:42-50 | the screenshot name starts with `<file>-<mode>-<direction>` and always ends with `.png` |
| `Generator.ScreenshotDarkSuffix` | core/src/utils/test/playwright/generator.ts:45-49 | a screenshot name ends in `-dark.png` exactly when the theme is dark; light adds no theme suffix |
| `Generator.ScreenshotInjective` | core/src/utils/test/playwright/generator.ts:38-50 | for a fixed base file name, two configs give the same screenshot name if and only if they are the same triple, despite the light theme having no suffix |
| `Generator.Configs` | core/src/utils/test/playwright/generator.ts:55-83 | the nested loops yield exactly the cross product of the resolved lists, and each descriptor holds the triple at its own index; the result is in nested order (count and index formula) |
| `Generator.Expand` | core/src/utils/test/playwright/generator.ts:68-74 | the outer loop over modes yields exactly the cross product of the three lists, in nested order |
| `Generator.PushDirections` | core/src/utils/test/playwright/generator.ts:69-73 | for one mode, the middle loop appends that mode's variants direction by direction to the list built so far, leaving the earlier entries unchanged |
| `Generator.PushThemes` | core/src/utils/test/playwright/generator.ts:70-72 | for one mode and direction, the inner loop appends one variant per theme, in theme order, to the list built so far |
| `Generator.Describe` | core/src/utils/test/playwright/generator.ts:76-82 | the final map keeps the length and gives the descriptor at each index the config at that index |
| `Generator.CrossProductShape` | core/src/utils/test/playwright/generator.ts:68-74 | the cross product has (number of modes)·(number of directions)·(number of themes) entries and (modes[i], directions[j], themes[k]) is at i·D·T + j·T + k, where D and T count directions and themes, so theme varies fastest; nothing is sorted or deduplicated |
| `Generator.CrossProductMembers` | core/src/utils/test/playwright/generator.ts:68-74 | a triple is produced if and only if its mode, direction and theme were each selected |
| `Generator.CrossProductDistinct` | core/src/utils/test/playwright/generator.ts:68-74 | when no selected list repeats a value, no variant repeats |
| `Generator.Resolve` | core/src/utils/test/playwright/generator.ts:64-66 | a supplied list is used as it is, even when empty; only an absent field falls back to the default list (the `??` operator); `ExplicitEmptyIsKept`, `DefaultVariants` and `DefaultThemeIsLight` draw the consequences for the whole expansion |
| `Generator.ResolvedModes` | core/src/utils/test/playwright/generator.ts:64-85 | an absent `modes` resolves to the default `[ios, md]`; a supplied list is kept |
| `Generator.ResolvedDirections` | core/src/utils/test/playwright/generator.ts:65-86 | an absent `directions` resolves to the default `[ltr, rtl]`; a supplied list is kept |
| `Generator.ResolvedThemes` | core/src/utils/test/playwright/generator.ts:66-87 | an absent `themes` resolves to the default `[light]` only; a supplied list is kept |
| `Generator.Variants` | core/src/utils/test/playwright/generator.ts:64-74 | the variants of a selection, counted after defaults are substituted, number (modes)·(directions)·(themes) and sit in nested order: (modes[i], directions[j], themes[k]) at i·D·T + j·T + k |
| `Generator.Title` | core/src/utils/test/playwright/generator.ts:79 | a descriptor's title namer gives `<title> - <mode>/<direction>/<theme>` built from that descriptor's own config; `DescriptorNames` ties it to the variant at each position |
| `Generator.Screenshot` | core/src/utils/test/playwright/generator.ts:80 | a descriptor's screenshot namer gives `<file>-<mode>-<direction>-dark.png` for a dark config and `<file>-<mode>-<direction>.png` for a light one, from that descriptor's own config |
| `Generator.DefaultVariants` | core/src/utils/test/playwright/generator.ts:55-93 | with no field set, or with the default argument, the variants are exactly (ios,ltr,light), (ios,rtl,light), (md,ltr,light), (md,rtl,light) in this order |
| `Generator.ExplicitEmptyIsKept` | core/src/utils/test/playwright/generator.ts:64-66 | a dimension supplied as an empty list is not replaced by its default, so no variant is generated |
| `Generator.DefaultThemeIsLight` | core/src/utils/test/playwright/generator.ts:66-87 | when themes are not supplied every variant is light, because the theme default is only `[light]` |
| `Generator.DescriptorNames` | core/src/utils/test/playwright/generator.ts:76-82 | the descriptor at the position of (modes[i], directions[j], themes[k]) titles and names screenshots with exactly that triple's names |
| `Generator.NamesUnique` | core/src/utils/test/playwright/generator.ts:26-82 | when no selected list repeats a value, all descriptors of one call have pairwise different titles and pairwise different screenshot names |

## Left out

- The Playwright runner that consumes the titles and file names, screenshot capture and file writing: they are outside the modelled file.
- The namers as closures stored in the descriptor: a descriptor holds only its config, and `Title` and `Screenshot` are pure functions of that config. This is the same observable behaviour. Dafny function values would add nothing.
- Runtime strings outside the enumerations: the three dimensions are closed datatypes, so an invalid value cannot be built.
- The difference between calling `configs()` without an argument and passing an object whose fields are absent: both are `TestConfigOption` values. `DefaultVariants` proves that they give the same variants.
- `null` fields: `??` treats `null` like an absent field, and both are `None` here.
- A separate lemma that `Configs` reads only its argument and the default constants and changes neither: inputs and results are immutable values in the model, so this holds by construction.
- The default constants (`DefaultModes`, `DefaultDirections`, `DefaultThemes`, `DefaultTestConfigOption`, lines 85-93) are constants, not operations; their values are stated by the contracts of `ResolvedModes`, `ResolvedDirections`, `ResolvedThemes` and `DefaultVariants`.
