# AVR indirect addressing modes and port directions

A Dafny model of two small enumerations from the ATmega part of the Simulino
microcontroller simulator (Java):

- `IndirectionType` covers the three register-indirect addressing modes of the
  AVR instruction set: `Unchanged` (`X`), `PostIncrement` (`X+`) and
  `PreDecrement` (`-X`). Each mode has an operator applied to the pointer
  register before the memory access and one applied after it. These operators
  are the `incrementor`, `nil` and `decrementor` of the helper class `Aux`. Each
  mode also has a mnemonic renderer. `fromIndex` picks a mode by its encoding
  index.
- `PortType` is the direction of an I/O port (`Input`, `Output`, `Both`), with
  the abbreviations `I`, `O` and `B`. `fromChar` finds a direction by its
  abbreviation.

Both enumerations are pure, so each becomes a `datatype` whose functions
`match` on the variant. The files are:

- `outcome.dfy` (module `Outcome`): `Option`, and `Lookup`. A `Lookup` is
  `Found(v)`, `Absent` or `StubReached`:
  - `Absent` is the Java `null` that callers must test for.
  - `StubReached` means the program reached the fail-fast stub
    `Utils.TEST_DRIVE_ME`.
- `java_int.dfy` (module `JavaInts`): the 32-bit Java `int` and its
  wrap-around.
- `indirection.dfy` (module `Indirection`): `Aux` and `IndirectionType`.
- `ports.dfy` (module `Ports`): `PortType`.

Java's `int` arithmetic is modelled exactly. `x + 1` at `Integer.MAX_VALUE`
gives `Integer.MIN_VALUE`, and `x - 1` at the lower end wraps the same way.
So the net-adjustment property holds exactly inside the range and modulo 2^32
at its two ends.

## Model

| member | source | states |
|---|---|---|
| `JavaInts.Wrap` | src/main/java/simulino/cpu/arch/avr/ATmega/IndirectionType.java:49-51 | the result of Java's `x + 1` / `x - 1` is in the 32-bit range, congruent to the exact value modulo 2^32, and equal to it when the exact value fits |
| `Indirection.Apply` | src/main/java/simulino/cpu/arch/avr/ATmega/IndirectionType.java:44-52 | `nil` is the identity and the only operator that fixes a value; `incrementor` adds one and `decrementor` subtracts one, each wrapping at the range's end |
| `Indirection.IndirectionType.Ordinal` | src/main/java/simulino/cpu/arch/avr/ATmega/IndirectionType.java:10-12 | the declaration position of a mode, below the number of modes |
| `Indirection.IndirectionType.Pre` | src/main/java/simulino/cpu/arch/avr/ATmega/IndirectionType.java:10-25 | the `pre` field each mode's constructor sets: the `Aux` decrementor for `PreDecrement`, `nil` for the other two, never the incrementor |
| `Indirection.IndirectionType.Post` | src/main/java/simulino/cpu/arch/avr/ATmega/IndirectionType.java:10-25 | the `post` field each mode's constructor sets: the `Aux` incrementor for `PostIncrement`, `nil` for the other two, never the decrementor |
| `Indirection.IndirectionType.PreOperate` | src/main/java/simulino/cpu/arch/avr/ATmega/IndirectionType.java:28 | the register changes before the access exactly for `PreDecrement`, and then becomes `x - 1` (wrapped) |
| `Indirection.IndirectionType.PostOperate` | src/main/java/simulino/cpu/arch/avr/ATmega/IndirectionType.java:30 | the register changes after the access exactly for `PostIncrement`, and then becomes `x + 1` (wrapped) |
| `Indirection.IndirectionType.NetStep` | src/main/java/simulino/cpu/arch/avr/ATmega/IndirectionType.java:10-12 | a reference value for each mode's net register change: 0, +1 or -1 |
| `Indirection.IndirectionType.ToString` | src/main/java/simulino/cpu/arch/avr/ATmega/IndirectionType.java:39-41 | the rendering keeps the register name whole; `PostIncrement` adds one `+` after it, `PreDecrement` adds one `-` before it, and `Unchanged` adds nothing |
| `Indirection.Values` | src/main/java/simulino/cpu/arch/avr/ATmega/IndirectionType.java:33 | `values()` holds the three modes, each at its declaration position |
| `Indirection.FromIndex` | src/main/java/simulino/cpu/arch/avr/ATmega/IndirectionType.java:32-37 | a negative index reaches the stub and nothing else does; `null` exactly for an index of 3 or more; otherwise the mode declared at that index |
| `Indirection.FromIndexOrdinal` | src/main/java/simulino/cpu/arch/avr/ATmega/IndirectionType.java:32-36 | round trip: every mode is found at its own ordinal |
| `Indirection.FromIndexInOrder` | src/main/java/simulino/cpu/arch/avr/ATmega/IndirectionType.java:10-12 | indices 0, 1 and 2 give `Unchanged`, `PostIncrement` and `PreDecrement` |
| `Indirection.AtMostOneAdjusts` | src/main/java/simulino/cpu/arch/avr/ATmega/IndirectionType.java:10-12 | for each mode, one of the pre and post operators is `nil`, so the identity on every register value |
| `Indirection.NetAdjustment` | src/main/java/simulino/cpu/arch/avr/ATmega/IndirectionType.java:49-51 | post after pre moves the register by 0, +1 or -1 for `Unchanged`, `PostIncrement` and `PreDecrement`: exactly away from the range's ends, modulo 2^32 always |
| `Indirection.NetAdjustmentWraps` | src/main/java/simulino/cpu/arch/avr/ATmega/IndirectionType.java:49-51 | at `Integer.MAX_VALUE` a post-increment gives `Integer.MIN_VALUE`, and at `Integer.MIN_VALUE` a pre-decrement gives `Integer.MAX_VALUE` |
| `Indirection.ShiftedConstant` | src/main/java/simulino/cpu/arch/avr/ATmega/IndirectionType.java:11-12 | a string that reads the same with `a` appended as with `b` prepended consists of `b` only, and `a == b`; this is the argument behind the two decorated renderings being different |
| `Indirection.PostIncrementNotPreDecrement` | src/main/java/simulino/cpu/arch/avr/ATmega/IndirectionType.java:11-12 | `r + "+"` and `"-" + r` differ for every string `r` |
| `Indirection.ToStringDistinguishesModes` | src/main/java/simulino/cpu/arch/avr/ATmega/IndirectionType.java:10-12 | for any register name, the three renderings are pairwise distinct |
| `Indirection.ToStringDistinguishesRegisters` | src/main/java/simulino/cpu/arch/avr/ATmega/IndirectionType.java:39-41 | for a fixed mode, equal renderings come from equal register names |
| `Indirection.ToStringExamples` | src/main/java/simulino/cpu/arch/avr/ATmega/IndirectionType.java:10-12 | register `X` renders as `X`, `X+` and `-X` |
| `Ports.PortType.Ordinal` | src/main/java/simulino/cpu/arch/avr/ATmega/PortType.java:9-11 | the declaration position of a direction, below the number of directions |
| `Ports.PortType.Abbrev` | src/main/java/simulino/cpu/arch/avr/ATmega/PortType.java:9-17 | the `abbrev` field each direction's constructor sets: the letters `I`, `O` and `B` in declaration order |
| `Ports.Values` | src/main/java/simulino/cpu/arch/avr/ATmega/PortType.java:20 | `values()` holds the three directions, each at its declaration position |
| `Ports.AbbrevInjective` | src/main/java/simulino/cpu/arch/avr/ATmega/PortType.java:9-11 | the abbreviations are pairwise distinct |
| `Ports.Search` | src/main/java/simulino/cpu/arch/avr/ATmega/PortType.java:20-22 | the for-each loop finds nothing exactly when no listed direction has abbreviation `c`; otherwise it returns the first listed direction whose abbreviation is `c` |
| `Ports.SearchOrderIndependent` | src/main/java/simulino/cpu/arch/avr/ATmega/PortType.java:20-21 | since abbreviations are unique, two lists with the same directions give the same search result |
| `Ports.FromChar` | src/main/java/simulino/cpu/arch/avr/ATmega/PortType.java:19-25 | `fromChar` succeeds exactly for `I`, `O` and `B`, and then returns the direction with that abbreviation; any other character reaches the stub and never gives a plain `null` |
| `Ports.FromCharAbbrev` | src/main/java/simulino/cpu/arch/avr/ATmega/PortType.java:13-21 | round trip: every direction is found again from its own abbreviation |
| `Ports.FromCharExamples` | src/main/java/simulino/cpu/arch/avr/ATmega/PortType.java:19-24 | `I`, `O` and `B` give `Input`, `Output` and `Both`; matching is case-sensitive (`i` is not recognised), and `X` reaches the stub |

## Left out

- `Utils.TEST_DRIVE_ME` is not part of this model, and its body is unknown. Both calls become the `StubReached` outcome, which does not say whether the stub throws. For a negative index this makes no difference: if the stub returned, `array[index]` would throw, so no mode is ever returned.
- `Indirection.IndirectionType.ToString`: a `null` register name is not modelled, because a Dafny `string` cannot be `null`. In Java, `toString(null)` gives `null` for `Unchanged`, and `"null+"` and `"-null"` for the other two modes, because Java's `+` turns a `null` operand into the text `null`. So `Indirection.ToStringDistinguishesRegisters` holds only for names that are not `null`: `PostIncrement` renders `null` and `"null"` the same way. `Indirection.ToStringDistinguishesModes` still holds with `null`, since the three results `null`, `"null+"` and `"-null"` all differ.
- `Ports.FromChar`: the `return null` after the stub is folded into `StubReached`, because it is reached only if the stub returns. The model never gives `Absent` here.
- The Java object layer: lambda-valued fields, the `Stringifier` and `Aux.Operator` interfaces, and the array that `values()` allocates. These become datatypes, `match` and sequences. Object identity has no observable effect on these functions.
- Java `char` is a UTF-16 code unit, while Dafny `char` is a Unicode scalar value. `fromChar` only compares characters for equality, so the difference does not matter for these three ASCII letters.
- Callers are outside these files: the instruction decoder, the register file and memory access, and the device-description loader. The caller's order of operations is not modelled as an operation. It runs the pre-access operator, uses the result as the address, then runs the post-access operator. `Indirection.NetAdjustment` states the combined effect of that sequence on the register.
