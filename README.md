# MemberTypeSetting, modelled in Dafny

CodeMaid keeps one `MemberTypeSetting` per kind of code member (field,
property, method, ...). The object holds a default name that never changes
after construction, plus an effective name and an order that the settings
user interface edits in place. For the settings store it is converted to and
from the text `defaultName||order||effectiveName`:

- The serialiser is `string.Format("{0}||{1}||{2}", ...)`.
- The deserialiser matches `^(?<defaultName>\w+)\|\|(?<order>\d+)\|\|(?<effectiveName>.*)$`.
  It converts the order group with `Convert.ToInt32`. Any exception is
  caught, and the conversion then returns null.

The model has four modules:

- `Text` (text.dfy): the ASCII character classes `\w` and `\d`, the value of a
  digit run, the decimal rendering of an integer, and the `int32` range.
- `Format` (format.dfy): `Serialize` and `Parse` as functions.
  - `Parse` is written as a scanner: a greedy word run, `||`, a greedy digit
    run, `||`, and the remainder.
  - `PatternMatches` states what the regular expression means, as a predicate
    on the text and its three groups.
  - The lemmas tie `Parse` to `PatternMatches` in both directions and prove the
    round trip and the failure cases.
- `MemberTypeSettings` (setting.dfy): the class.
  - `defaultName` is a `const`; `effectiveName` and `order` are `var` fields.
  - Each setter's frame is its own field, so it changes that field and nothing else.
  - `ToText` is the serialising operator and `FromText` the deserialising one.
  - The properties' getters are plain reads of these fields.
- `Scenarios` (scenarios.dfy): concrete inputs and their results.

`Wrappers` (wrappers.dfy) holds `Option`. `None` stands for the null that the
deserialiser returns. It also stands for a null argument given to `FromText`.

Three behaviours of the deserialiser are easy to get wrong:

- An empty default name never matches, because `\w+` needs at least one
  character (`ParseEmptyDefaultNameExample`).
- The effective name may contain `||`. It is taken verbatim to the end of the
  text (`RemainderVerbatim`). What breaks the round trip is a line feed:
  - `.` does not match `\n`, so a line feed followed by more text makes the
    parse fail.
  - `$` also matches just before a final `\n`, so a single final line feed is
    dropped from the effective name.
- The round trip needs the default name to be a word run, not merely free of
  `||`. A default name containing `||` comes back as different values
  (`DelimiterCollisionExample`).

## Model

Definitions without a contract of their own, characterised by the members in
the table:

- `Format.Serialize` models line 96; `Format.SerializeLayout` and `Format.RoundTrip` describe it.
- `Format.FromGroups` models lines 78-81 and 83-86, the conversion of the order group and the construction; `Format.ParseLayout` and `Format.ParseComplete` describe it.
- `Format.PatternMatches` is the meaning of the pattern at line 71; it is the reference that `Format.ParseSound` and `Format.ParseComplete` compare `Format.Parse` against.
- `Text.DigitsValue` is the value `Convert.ToInt32` reads at line 78; `Text.NatToDecimal`, `Text.LeadingZeroIgnored` and `Text.DecimalOfValue` describe it.
- `Text.IsWordChar` and `Text.IsDigit` are `\w` and `\d` at line 71, as ASCII.
- `MemberTypeSettings.MemberTypeSetting.Values` gives the object's current default name, order and effective name, as the getters at lines 40-58 do.

| member | source | states |
|---|---|---|
| `Text.NatToDecimal` | CodeMaid/Helpers/MemberTypeSetting.cs:96 | the decimal text of a non-negative order is a non-empty digit run with no redundant leading zero whose value is the order |
| `Text.Int32ToDecimal` | CodeMaid/Helpers/MemberTypeSetting.cs:96 | an `int` is written as canonical digits of its value; a negative one as '-' followed by canonical digits of its magnitude |
| `Text.LeadingZeroIgnored` | CodeMaid/Helpers/MemberTypeSetting.cs:78 | a leading zero does not change the value `Convert.ToInt32` reads from a digit string |
| `Text.DecimalOfValue` | CodeMaid/Helpers/MemberTypeSetting.cs:78 | a canonical digit run is exactly the decimal text of its own value (reading then printing is the identity on canonical runs) |
| `Text.CanonicalDigitsUnique` | CodeMaid/Helpers/MemberTypeSetting.cs:78 | two canonical digit runs have the same value if and only if they are the same text |
| `Format.SerializeLayout` | CodeMaid/Helpers/MemberTypeSetting.cs:96 | the serialised text is the default name verbatim, `\|\|`, the order in decimal, `\|\|`, and the effective name verbatim; nothing is escaped |
| `Format.Parse` | CodeMaid/Helpers/MemberTypeSetting.cs:69-88 | the deserialiser; whatever it returns has a word-run default name, an order of at least zero and an effective name with no line feed (fully characterised by `ParseSound`, `ParseComplete` and `ParseFailsExactly`) |
| `Format.SerializeThenParse` | CodeMaid/Helpers/MemberTypeSetting.cs:69-97 | the serialised text of serialisable values parses back to them; with a negative order and no '\|' in the default name it is refused |
| `Format.RunEnd` | CodeMaid/Helpers/MemberTypeSetting.cs:71 | the scanner step for `\w+` and `\d+`: every character up to the result satisfies the class and the character at the result does not (the run is maximal) |
| `Format.MatchToEnd` | CodeMaid/Helpers/MemberTypeSetting.cs:71 | `(.*)$` accepts a remainder exactly when it has no line feed or only one final line feed; the group is the remainder without that final line feed |
| `Format.MatchToEndOf` | CodeMaid/Helpers/MemberTypeSetting.cs:71 | a remainder free of line feeds, with or without one appended line feed, yields exactly that remainder as the effective name |
| `Format.ParseSound` | CodeMaid/Helpers/MemberTypeSetting.cs:71-81 | whatever the deserialiser accepts matches the regular expression, with the parsed names as the first and third groups and the order as the value of the second |
| `Format.ParseLayout` | CodeMaid/Helpers/MemberTypeSetting.cs:75-81 | on a word run, `\|\|`, a digit run and `\|\|`, the result depends only on the order's range and on how `(.*)$` treats the remainder |
| `Format.ParseComplete` | CodeMaid/Helpers/MemberTypeSetting.cs:71-86 | where the regular expression matches, the deserialiser returns exactly its three groups, or null when the order group exceeds 2147483647 |
| `Format.ParseFailsExactly` | CodeMaid/Helpers/MemberTypeSetting.cs:71-86 | the deserialiser returns null if and only if the pattern does not match or every match has an order group beyond the 32-bit range |
| `Format.RoundTrip` | CodeMaid/Helpers/MemberTypeSetting.cs:69-97 | a default name that is a word run, an order of at least zero and an effective name with no line feed parse back to the same three values |
| `Format.RoundTripFinalLineFeed` | CodeMaid/Helpers/MemberTypeSetting.cs:71-97 | one line feed appended to the serialised text is dropped and the same three values still come back |
| `Format.InnerLineFeedRejected` | CodeMaid/Helpers/MemberTypeSetting.cs:71-86 | a line feed in the remainder that is followed by more text makes the deserialiser return null |
| `Format.RemainderVerbatim` | CodeMaid/Helpers/MemberTypeSetting.cs:71-81 | the effective name is the whole remainder after the second delimiter, further `\|\|` included |
| `Format.OverflowRejected` | CodeMaid/Helpers/MemberTypeSetting.cs:75-86 | a well-formed order group whose value exceeds 2147483647 overflows `Convert.ToInt32` and the result is null |
| `Format.ParsedDefaultName` | CodeMaid/Helpers/MemberTypeSetting.cs:71-77 | on success the default name is a non-empty word run and is exactly the text before the first '\|' |
| `Format.LeadingZeroAccepted` | CodeMaid/Helpers/MemberTypeSetting.cs:71-78 | a leading zero in the order group changes neither acceptance nor the values returned |
| `Format.NegativeOrderNeverParses` | CodeMaid/Helpers/MemberTypeSetting.cs:71-96 | with no '\|' in the default name, a negative order serialises to a text the deserialiser rejects, since `\d+` refuses '-' |
| `Format.ParseThenSerialize` | CodeMaid/Helpers/MemberTypeSetting.cs:69-97 | parsing a matched text and serialising the values gives back that text if and only if the order group is canonical and there is no final line feed |
| `Format.NormalFormStable` | CodeMaid/Helpers/MemberTypeSetting.cs:69-97 | whatever the deserialiser returns serialises to a text that parses back to the same values |
| `MemberTypeSettings.MemberTypeSetting.constructor` | CodeMaid/Helpers/MemberTypeSetting.cs:26-31 | the three arguments are stored unchanged, with no validation |
| `MemberTypeSettings.MemberTypeSetting.SetEffectiveName` | CodeMaid/Helpers/MemberTypeSetting.cs:45-49 | the effective name becomes the new value; the order and the read-only default name are unchanged |
| `MemberTypeSettings.MemberTypeSetting.SetOrder` | CodeMaid/Helpers/MemberTypeSetting.cs:54-58 | the order becomes the new value; the effective name and the default name are unchanged |
| `MemberTypeSettings.MemberTypeSetting.ToText` | CodeMaid/Helpers/MemberTypeSetting.cs:94-97 | the text is `Serialize` of the current values; it parses back to them when they are serialisable, and never parses when the order is negative and the default name has no '\|' |
| `MemberTypeSettings.MemberTypeSetting.FromText` | CodeMaid/Helpers/MemberTypeSetting.cs:69-88 | null input gives null; otherwise the result is null exactly when parsing fails, else a new object holding the parsed values |
| `MemberTypeSettings.Reload` | CodeMaid/Helpers/MemberTypeSetting.cs:69-97 | a caller that serialises a valid setting and deserialises the text gets a new object with the same values |
| `Scenarios.SerializeExample` | CodeMaid/Helpers/MemberTypeSetting.cs:96 | `field`, 0, `Fields` serialises to `field\|\|0\|\|Fields` |
| `Scenarios.ParsePropertyExample` | CodeMaid/Helpers/MemberTypeSetting.cs:71-81 | `property\|\|1\|\|Properties` parses to `property`, 1, `Properties` |
| `Scenarios.ParseSpacesExample` | CodeMaid/Helpers/MemberTypeSetting.cs:71-81 | spaces in the effective name are kept |
| `Scenarios.ParseDelimiterInRemainderExample` | CodeMaid/Helpers/MemberTypeSetting.cs:71-81 | `x\|\|5\|\|a\|\|b` gives the effective name `a\|\|b` |
| `Scenarios.ParseEmptyExample` | CodeMaid/Helpers/MemberTypeSetting.cs:71-86 | the empty text gives null |
| `Scenarios.ParseNoDelimiterExample` | CodeMaid/Helpers/MemberTypeSetting.cs:71-86 | a text without delimiters gives null |
| `Scenarios.ParseNotANumberExample` | CodeMaid/Helpers/MemberTypeSetting.cs:71-86 | a non-numeric order gives null |
| `Scenarios.ParseEmptyDefaultNameExample` | CodeMaid/Helpers/MemberTypeSetting.cs:71-86 | an empty default name gives null |
| `Scenarios.LargestOrderExample` | CodeMaid/Helpers/MemberTypeSetting.cs:78 | the order 2147483647 is accepted |
| `Scenarios.OverflowExample` | CodeMaid/Helpers/MemberTypeSetting.cs:78-86 | the order 2147483648 gives null |
| `Scenarios.LeadingZerosExample` | CodeMaid/Helpers/MemberTypeSetting.cs:71-81 | `a\|\|007\|\|x` parses to order 7 |
| `Scenarios.LeadingZerosDroppedExample` | CodeMaid/Helpers/MemberTypeSetting.cs:96 | those values serialise to `a\|\|7\|\|x`, so parse-then-serialise is not the identity on texts |
| `Scenarios.FinalLineFeedExample` | CodeMaid/Helpers/MemberTypeSetting.cs:71-81 | a final line feed is dropped from the effective name |
| `Scenarios.InnerLineFeedExample` | CodeMaid/Helpers/MemberTypeSetting.cs:71-86 | a line feed inside the effective name gives null |
| `Scenarios.DelimiterCollisionExample` | CodeMaid/Helpers/MemberTypeSetting.cs:71-96 | a default name `a\|\|5` with order 3 and effective name `x` comes back as `a`, 5, `3\|\|x` |
| `Scenarios.NegativeOrderExample` | CodeMaid/Helpers/MemberTypeSetting.cs:71-96 | order -1 serialises as `-1`, and that text gives null |

## Left out

- Logging: the failure message written to the IDE output window (line 85) is I/O. Only the null result is modelled.
- Change notification from the `Bindable` base class (lines 10, 47-48, 56-57): it is user-interface data binding, and its source is not part of this model. The setters are modelled as plain field updates.
- The .NET regular-expression engine: the pattern's meaning is modelled as the `Format.PatternMatches` predicate and a direct scanner.
- Unicode breadth: `\w` is taken as ASCII letters, digits and `_`, and `\d` as ASCII `0`-`9`. With Unicode digits, `\d` would match text that `Convert.ToInt32` then rejects.
- Culture: `string.Format` and `Convert.ToInt32` are taken as invariant-culture decimal, with '-' as the negative sign.
- Null name strings: the constructor accepts null names, and `string.Format` prints a null as empty text. Dafny strings are values, so names are never null here. Only a null input to the deserialiser is modelled, as `None`.
- Serialising a null setting: line 96 throws an uncaught `NullReferenceException` when the argument is null. `ToText` is an instance member, so the model has no null receiver and cannot express that case.
- Exceptions: they are modelled as a `None` result, not as control flow.
