# Plustek scanner driver: a verified model

A Dafny model of the algorithms inside the Plustek parallel-port and USB drivers
(`backend/plustek-pp_*.c`, `backend/plustek-usb*.c`), with proofs of what they compute. The hardware
appears as an arbitrary stream of readings, polls or successes, so every statement holds for every
behaviour of the device. `dafny verify dfyconfig.toml` checks all files.

| files | what they model |
|---|---|
| `TrimmedMean`, `Shading98001`, `ShadingBlue`, `Shading98003`, `Words`, `Planes`, `ShadingPlanes`, `WaveformPlanes` | shading calibration: 32 lines summed, 3 brightest and 5 darkest samples per pixel kept in strided slots, the rest averaged and narrowed inside the buffer of the sums |
| `ShadingSmoother`, `FbkSearch` | sliding average of a shading line; successive approximation of a feedback register |
| `MotorRing`, `RunTable`, `MoveSteps` | the 64-slot motor program refilled while the ASIC walks it; the DDA that marks picture lines; the packed step tables |
| `ColorLines`, `RingSlots`, `UsbLines`, `LineSampling` | registration of red, green and blue lines by two readers, the USB get pointers, decimation of lines |
| `UnsharpMask`, `UnsharpFilter` | arithmetic and three-line ring of the unsharp filter |
| `GainSearch`, `OffsetSearch`, `Bisection`, `Calibration` | CIS coarse calibration: bisections without an iteration limit, and the lamp and strip state machine |
| `ScaleX`, `LongRand`, `LongRandPeriod`, `MemoryProbe`, `Arith` | horizontal scaling, the random number generator and its period, the RAM size probe |

Code that works in place is modelled in place, as classes and array methods proved against pure
functions; what those functions mean is proved in lemmas. Integer widths are written out wherever
they matter.

## Where the code and its promises differ

In each case the code is modelled as it is, and a theorem says exactly when the promise is kept.

- ASIC 98001, blue: samples are scaled to 94 percent, the extremes taken off the sum are not
  (`ShadingBlue.BlueAverage`, `ShadingBlue.BrightTooDark`).
- ASIC 98003, colour: only 8100 of the 16200 32-bit sums are cleared, so at 600 dpi the pixels from 2700
  on start from what was there before (`Shading98003.ColourAlwaysRight`).
- ASIC 98003, gray: the memory that is cleared for the bright slots is counted for three channels and
  covers the dark slots of a gray scan, which then never collect anything (`Shading98003.GrayAverage`).
- The keep rings of the colour-line reader are laid out in lines of three planes, but memory is asked for
  as if a line were one plane: wherever the reader is chosen at 600 dpi, the green ring lies behind the
  driver memory (`ColorLines.ChosenRingsFitExactly`, `ColorLines.NothingIsRightAt600`,
  `ColorLines.SetupGoesWrong`). Besides, the blue slot lies inside the red ring
  (`ColorLines.SetupIsRightExactly`).
- One-channel USB colour in the sensor order green, blue, red is right only until the buffer is first
  walked through (`UsbLines.OneChannelLawExactly`).
- The offset search says that it raises the offset for too many zero pixels; it lowers it
  (`OffsetSearch.ZeroPixelsNeverRaise`).
- `cano_PrepareToReadBlackCal` returns SANE_FALSE on an error, which its callers take for success
  (`Calibration.Scanner.PrepareToReadBlackCal`).
- The gain search never arrives at gain 63, only at 1 to 62 (`GainSearch.FoundExactly`,
  `GainSearch.TopGainMissed`).
- Scaling of one-bit lines is told of a number of pixels as if it were bytes, and reads past the line,
  though what it delivers is right (`ScaleX.WideningReads`, `ScaleX.LineartReadsPast`).
- The first line of a halftone scan is never processed: the user gets whatever the buffer held
  (`UnsharpFilter.ReadPicture`).
- USB start pointers obey the law of the get pointers only in a buffer of more lines than the sensor
  rows are apart, and nothing looks at that (`UsbLines.StartsObeyLawExactly`).
- A move that is loaded completely is walked again, with its steps, if no look at the state register
  falls on its last slot (`MotorRing.EndsRightExactly`, `MotorRing.WalkedTwice`).
- Lines of more than 5120 bytes, as gray scans have above 602 dpi at full width, run into the next slot of
  the unsharp ring and past its buffer (`UnsharpFilter.SlotsHoldExactly`,
  `UnsharpFilter.FirstFilteredLineExactly`).
- The unsharp ring goes out of step at the line after the last one; the driver stops before
  (`UnsharpFilter.AlignedExactly`, `UnsharpFilter.ReadPicture`). A filtered line is delivered one line
  late and one pixel to the left, its last two pixels unfiltered.
- The random number generator leaves its cycle for seeds whose low 31 bits are all zeros or all ones
  (`LongRand.NextLongRand`, `LongRand.Generator.Seed`).
- The constant of 64 memory banks is described as five low bits (`backend/plustek-pp_scandata.h:484`); it
  takes six (`MemoryProbe.Device.SetMemoryBankForProgram`).

## Model

| member | source | states |
|---|---|---|
| TrimmedMean.PassKeeps | backend/plustek-pp_dac.c:571-591 | One insertion pass turns the slots for n samples into the slots for n + 1: the k brightest (darkest) in order, padded by the initial value, as a full sort of all samples would give them |
| TrimmedMean.ExtremesAndMiddle | backend/plustek-pp_dac.c:2128-2170 | The kept 3 brightest and 5 darkest and the middle samples make up the samples exactly, as multisets and as sums, and every middle sample lies between the two groups |
| TrimmedMean.MeanInMiddle | backend/plustek-pp_tpa.c:92-107 | The mean of the 24 middle samples lies between the darkest and the brightest of them |
| TrimmedMean.SortSorts | backend/plustek-pp_dac.c:559-593 | The reference the slots are compared with is a sorted permutation of the samples |
| Shading98001.KeepExtremes | backend/plustek-pp_dac.c:568-577 | Offers one sample to the strided slots of one pixel, in place; no other word of the memory changes |
| Shading98001.SortHilightShadow | backend/plustek-pp_dac.c:559-593 | One line of one channel: every pixel gets both passes, and nothing outside the channel changes |
| Shading98001.KeptStep | backend/plustek-pp_dac.c:722-732 | After any number of lines the slots of every pixel and channel hold what a full sort would put there |
| Shading98001.AddLine | backend/plustek-pp_dac.c:734-761 | Adds a line to the 32-bit sums of all three channels; for up to 32 lines no sum overflows |
| Shading98001.SubNoise | backend/plustek-pp_tpa.c:83-112 | Narrows one channel of 32-bit sums to 16-bit values in the same buffer: each equals the one computed from the sums before any narrowing |
| Shading98001.NarrowedOutside | backend/plustek-pp_tpa.c:83-112 | Words before the first and behind the last pixel of a channel become the mean of all 32 words |
| Shading98001.ShadingWaveformSum | backend/plustek-pp_tpa.c:125-139 | The three channels narrowed one after another inside one buffer equal the out-of-place result; no sum is clobbered before it is read |
| Shading98001.Adjust12BitShading | backend/plustek-pp_dac.c:679-768 | 32-times mode from clearing to averaging, in place: slots and averages of every pixel in terms of its 32 samples |
| Shading98001.RedGreenAverage | backend/plustek-pp_dac.c:734-750 | Red and green get exactly (sum of the samples less 3 brightest and 5 darkest) / 24, between the darkest and the brightest middle sample; what is subtracted never exceeds the 32-bit sum, and the quotient fits 16 bits |
| ShadingPlanes.AdjustPlanes | backend/plustek-pp_dac.c:679-768 | 32-times mode, from the planes of a line: if every line starts with a red, a green and a blue plane, red and green of pixel p get the mean of the 24 middle samples of their own plane, blue what is left of its scaled sum, and the slots of each colour hold the three brightest and five darkest of its own plane; nothing else is touched |
| ShadingPlanes.RankedAscends | backend/plustek-pp_dac.c:559-593 | The samples these are taken from are those of the plane in ascending order |
| ShadingPlanes.EvenPlanes | backend/plustek-pp_dac.c:734-761 | Even light of 1000, 2000 and 3000 gives 1000, 2000 and 2760 |
| ShadingBlue.BlueAverage | backend/plustek-pp_dac.c:760-761 | Blue, whose 16-bit words are scaled to 94 percent before they are cut to 12 bits while the kept extremes are not scaled, gets the mean of the scaled middle if and only if what the high bits add, less what the extremes lose by scaling, is rounded away by the division by 24 |
| ShadingBlue.BlueAverageOf12Bits | backend/plustek-pp_dac.c:760-761 | For words of 12 bits: if and only if what the extremes lose by scaling is at most the remainder of the division |
| ShadingBlue.EvenLightTooDark | backend/plustek-pp_dac.c:760-761 | A concrete family on which the blue law fails: every evenly lit pixel above zero |
| ShadingBlue.BrightTooDark | backend/plustek-pp_dac.c:760-761 | Every pixel that ever reads 384 or more gets a wrong average, whatever its other samples are |
| ShadingBlue.ScaleMiddle | backend/plustek-pp_dac.c:760-761 | The middle of the scaled samples is the scaled middle of the samples, ties made by rounding included |
| Shading98003.PlacesDiffer | backend/plustek-pp_dac.c:2020-2055 | Distinct slots of distinct values never share a word, whatever the stride |
| Shading98003.KeepExtremes | backend/plustek-pp_dac.c:2024-2055 | Offers one value to some slots of one lane with a variable stride; no other slot changes |
| Shading98003.SaveHilightShadow | backend/plustek-pp_dac.c:2002-2092 | One line updates the slots of every lane from pixel 4 on, in colour and in gray |
| Shading98003.AddToSumBuffer | backend/plustek-pp_dac.c:2094-2120 | One line adds to the 32-bit sum of every lane from pixel 4 on |
| Shading98003.KeptSlotsStep | backend/plustek-pp_dac.c:2020-2092 | Any number of lines in colour: 3 brightest and 5 darkest. In gray the dark slots stay at the zero they were cleared to |
| Shading98003.AverageAfterSub | backend/plustek-pp_dac.c:2127-2171 | Subtraction of the eight slots and division, narrowed in place, equal the out-of-place result for every lane |
| Shading98003.AdjustShadingWaveform | backend/plustek-pp_dac.c:1943-2171 | Clearing, 32 lines and averaging, in place: the average of every lane from its samples and from what its sum started with (only 8100 of 16200 sums are cleared) |
| WaveformPlanes.ShadeColour | backend/plustek-pp_dac.c:1943-2171 | The same from the colour planes of a line: red, green and blue of every pixel from the fourth on, interleaved in the buffer, get their own averages and slots; the first four pixels stay as cleared |
| WaveformPlanes.ShadeGray | backend/plustek-pp_dac.c:2062-2169 | A gray calibration takes the second plane of a line, takes only the three brightest words off, and leaves the dark slots at zero |
| Shading98003.ColourAverage | backend/plustek-pp_dac.c:2130-2153 | For given samples colour gets the exact mean of the 24 middle ones if and only if what was left in the sum is not seen by the division by 24; always where the sum was cleared |
| Shading98003.ColourAlwaysRight | backend/plustek-pp_dac.c:1943-1992 | Colour is right for all samples if and only if the word left in the sum is a multiple of 24 * 65536 and at least 24 * 65535 below 2^32 |
| Shading98003.GrayAverage | backend/plustek-pp_dac.c:1987-1992 | Gray gets that mean if and only if the five darkest samples together with the remainder stay below 24, because its dark slots are cleared to 0 instead of 0xffff |
| Shading98003.EvenLight | backend/plustek-pp_dac.c:1943-1992 | Concrete families: gray under even light is right exactly up to brightness 4; 24 left in a colour sum make it wrong |
| ShadingSmoother.SumAverageShading | backend/plustek-pp_dac.c:949-979 | The running 16-bit sums and the shift register compute the direct 13-tap average with the first pixel repeated on the left; other places of the target keep their values |
| ShadingSmoother.SumsFit | backend/plustek-pp_dac.c:955-978 | The 16-bit sums never overflow and every average fits a byte |
| ShadingSmoother.Between | backend/plustek-pp_dac.c:970-970 | An average stays between the darkest and the brightest pixel it is taken over |
| ShadingSmoother.SinglePixel | backend/plustek-pp_dac.c:955-970 | What one bright pixel contributes: a quarter to itself, a sixteenth to each of the six pixels on either side, the first one also for the places left of the line |
| ShadingSmoother.KeepsOrder | backend/plustek-pp_dac.c:968-978 | A line that never falls is smoothed into one that never falls |
| FbkSearch.Channel.Reading | backend/plustek-pp_dac.c:1571-1638 | The search shows 8 values (5 when correcting), each decided by the reading before, and leaves the last in the register and as result, for every sequence of lines |
| FbkSearch.Average | backend/plustek-pp_dac.c:1620-1623 | The 16-pixel average is compared as the unsigned 16-bit sum of the window shifted by 4, without overflow |
| FbkSearch.DarkInNumbers | backend/plustek-pp_dac.c:1620-1626 | A line is dark if and only if its pixels 26 to 41 add up to less than 4064 |
| FbkSearch.Brackets | backend/plustek-pp_dac.c:1623-1637 | For readings that are dark exactly below a threshold T, the result v satisfies v <= T <= v + 1 if and only if T was within reach of the start |
| FbkSearch.BracketsExactly | backend/plustek-pp_dac.c:1623-1637 | The same for every start, also near the ends of the byte: the thresholds bracketed are exactly those between two limits computed from the start |
| FbkSearch.FullSearch | backend/plustek-pp_dac.c:1576-1584 | From 0x80 exactly the thresholds 1 to 256 are bracketed |
| FbkSearch.CorrectingSearch | backend/plustek-pp_dac.c:1579-1581 | From every saved byte s the thresholds bracketed are one range, given exactly: s - 15 to s + 16 away from the ends of the byte, where a step that would leave the byte narrows it |
| FbkSearch.ResultIsBinary | backend/plustek-pp_dac.c:1628-1632 | The result spells the readings in binary |
| FbkSearch.FullSearchSpells | backend/plustek-pp_dac.c:1576-1632 | The full search returns 1 + 2 * (readings as a binary number), so that different readings give different results |
| FbkSearch.NeverWrapsExactly | backend/plustek-pp_dac.c:1628-1632 | The byte wraps for no readings at all if and only if the start leaves room for all remaining steps on both sides |
| FbkSearch.WrappingOfBothSearches | backend/plustek-pp_dac.c:1579-1584 | The full search never wraps; the correcting one never wraps if and only if the saved value is 15 to 240 |
| MotorRing.Motor.FillBackLoop | backend/plustek-pp_motor.c:539-568 | The next 64 slots get their step bit exactly for the entries before the end mark; the count names the slot of the last step; colour bits are untouched |
| MotorRing.Motor.FillRunNewAdrPointer1 | backend/plustek-pp_motor.c:672-695 | A refill at any state keeps the protocol, and the table index is the number of states passed, never past the first end mark |
| MotorRing.Motor.CheckMotorPresetLength | backend/plustek-pp_motor.c:206-245 | One look at the state register, for every poll: before the whole table is loaded the move never ends, the stop flag or the timer leads to a refill and sets a standing ASIC going, and without them there is a refill exactly after 40 states; afterwards stop flag, counted slot and timer decide in this order |
| MotorRing.Motor.GoFullStep | backend/plustek-pp_motor.c:2948-2961 | Whole move over every sequence of polls: states passed, last refill and outcome are those of looking at one poll after the other, the steps made are a function of them, and the ASIC never stands still in an unfinished move; nothing stops it from lapping the loaded program; steps of the program before are counted apart |
| MotorRing.LoadedEndsRightExactly | backend/plustek-pp_motor.c:206-245 | Once the whole table is loaded, for all polls: the move ends at the counted slot with the steps asked for if and only if a look falls on the last step on the first lap, before any look that ends it |
| MotorRing.EndsRightExactly | backend/plustek-pp_motor.c:2948-2961 | The same for whole moves, if up to 24 states before the end the looks come at most 24 states apart and none of the last 64 states shows stop flag or timer before |
| MotorRing.PassedEndsWrong | backend/plustek-pp_motor.c:206-245 | Once the last step is passed unseen, no further polls end the move with the steps asked for |
| MotorRing.CloseLooksEndRight | backend/plustek-pp_motor.c:2948-2961 | Looks at most one state apart, long enough, end every move on its last step with exactly the steps asked for, however often the ASIC stops before the last 64 states |
| MotorRing.WalkedTwice | backend/plustek-pp_motor.c:206-245 | Concrete failure: a move of 10 steps looked at after 11, 32, 53 and 74 states makes 20 |
| MotorRing.StopIsHarmless | backend/plustek-pp_motor.c:223-245 | A stop flag after 10 states of 200 costs nothing: the look refills, and 60 states later 70 steps are made |
| MotorRing.AdvanceKeeps | backend/plustek-pp_motor.c:206-245 | Every advance of the ASIC keeps the protocol, before the whole table is loaded as long as fewer than 64 states lie between refills, afterwards without limit |
| MotorRing.RefillKeeps | backend/plustek-pp_motor.c:672-695 | Every refill keeps the protocol |
| MotorRing.MadeOnce | backend/plustek-pp_motor.c:206-245 | Walking a loaded rest of n steps round and round makes n steps exactly when n is 0 or between n and 64 states have passed |
| MotorRing.StepsWithinLap | backend/plustek-pp_motor.c:206-245 | On the first lap the steps are the ones the table asks for up to that state |
| MotorRing.SlotByEntry | backend/plustek-pp_motor.c:539-568 | After a refill at state s, the bit of slot s + 1 + j, in the high nibble for odd slots, is set if and only if entry consumed + j is before the end mark |
| RunTable.StepMarks | backend/plustek-pp_motor.c:1041-1043 | A state at most one line is due at: the sum is at most the resolution exactly where floor(i * phy / base) grows |
| RunTable.StepWord | backend/plustek-pp_motor.c:1041-1043 | The 16-bit subtraction, the test of the word as a signed one and the addition of the base find exactly those states and keep the sum in range |
| RunTable.BaseCovers | backend/plustek-pp_motor.c:920-952 | The base resolution chosen from the one asked for is never below the physical one |
| RunTable.BaseIsLeast | backend/plustek-pp_motor.c:928-949 | It is the least resolution of the table not below the one asked for |
| RunTable.DistancesAre | backend/plustek-pp_motor.c:957-1017 | The row distances in states: the base over 150 dpi, or over 75 dpi on the wider sensor, and twice that; none and one at the minimum of the device |
| RunTable.HitOfLine | backend/plustek-pp_motor.c:1040-1054 | Line k is marked at state ceil(k * base / phy) - 1 |
| RunTable.SetupColour | backend/plustek-pp_motor.c:1024-1047 | From the resolution asked for: an entry has the blue bits 0x44 exactly at 16 + (k * base - 1) / phy for the lines k, the green bits 0x22 and the red bits 0x11 at the row distances behind, overlaps included, and bit 0x04 marks the lines |
| RunTable.SetupGray | backend/plustek-pp_motor.c:1048-1054 | The same for gray: 0x22 at exactly those entries, all others empty, and bit 0x02 marks the lines |
| RunTable.ColourIsMarked | backend/plustek-pp_image.c:615-616 | The bit a colour scan waits for is set exactly at the hits |
| RunTable.GrayIsMarked | backend/plustek-pp_image.c:615-616 | The bit a gray scan waits for is set exactly at the hits |
| RunTable.DataIsReady | backend/plustek-pp_image.c:617-623 | The search stops at the first later entry with the awaited bit |
| RunTable.SearchFindsLine | backend/plustek-pp_image.c:617-623 | One search: started at picture line k it stops at line k + 1 |
| RunTable.SearchLines | backend/plustek-pp_image.c:617-623 | A run of n searches from the start of a table stops at entry 16 + (n * base - 1) / phy, for every n up to the lines of the table |
| RunTable.MarkedCount | backend/plustek-pp_motor.c:1036-1054 | The number of marked entries up to any place: floor(states * phy / base) in the whole table |
| RunTable.LineFits | backend/plustek-pp_motor.c:1036-1054 | Line k lies in the table if and only if k is at most that number |
| MoveSteps.Countdown | backend/plustek-pp_motor.c:2229-2236 | The countdown delivers an entry exactly at the distances the speed divides |
| MoveSteps.Tables.FillMoveStepTable | backend/plustek-pp_motor.c:2214-2240 | Around the ring: slot (pos + j) mod 64 gets wIndex + j / speed if speed divides j, else 0; slots that are not filled keep their entry |
| MoveSteps.Tables.FillDataToColorTable | backend/plustek-pp_motor.c:413-457 | Colours are looked up in the run-table entry a slot names, and kept if there is none; each byte packs two slots, even one low, with three colour bits and the half-step bit |
| ColorLines.FifoReader.ReadOutScanner | backend/plustek-pp_image.c:254-278 | Discarding reader: a call delivers red k, green k + lag and blue k + lag as soon as the blue discards are used up, red and blue exchanged in BGR order |
| ColorLines.FifoReader.ReadMany | backend/plustek-pp_image.c:254-278 | The discarding reader delivers that stream, line by line and colour by colour |
| ColorLines.StepKeeps | backend/plustek-pp_image.c:198-252 | A call of the ring reader keeps pointers, counters and every line the rings still have to hold, in a memory of any size |
| ColorLines.Delivered | backend/plustek-pp_image.c:221-249 | The delivered lines are the aligned ones if and only if none of their addresses is the blue slot's and all of them lie in the driver memory |
| ColorLines.RingReader.ReadToDriver | backend/plustek-pp_image.c:198-252 | The keep-ring reader delivers, k calls after its lag, exactly red k, green k + lag and blue k + lag, exchanged in BGR order, unless the blue slot collides or an address lies behind the driver memory, whatever the layout and the size of that memory |
| ColorLines.RingReader.ReadMany | backend/plustek-pp_image.c:198-252 | With the blue slot apart from the rings and room for all of them it delivers the same aligned stream as the discarding reader |
| ColorLines.AlignedExactly | backend/plustek-pp_image.c:232-240 | The promised triple, colour by colour, with and without BGR order |
| ColorLines.SetupIsRightExactly | backend/plustek-pp_image.c:1534-1551 | About the addresses the driver sets up, in memory large enough: line k collides with nothing if and only if neither k nor k + blue lag falls on slot 6 of the red ring |
| ColorLines.SetupWithoutLag | backend/plustek-pp_image.c:1534-1551 | Without any lag no addresses collide |
| ColorLines.ChosenExactly | backend/plustek-pp_image.c:1510-1528 | When either reader is chosen, for every plane and lag, in products instead of quotients |
| ColorLines.ChosenAt600 | backend/plustek-pp_image.c:1510-1528 | At 600 dpi the keep-ring reader is chosen exactly for planes of 7373 to 9428 bytes; its size test counts one plane per line |
| ColorLines.RingsFitExactly | backend/plustek-pp_image.c:1538-1551 | The rings fit the driver memory if and only if three times the room the driver asks for does |
| ColorLines.ChosenRingsFitExactly | backend/plustek-pp_image.c:1510-1551 | Where the reader is chosen at all, with blue twice green, the rings fit if and only if the green lag is one line and a plane at most 8800 bytes |
| ColorLines.NothingIsRightAt600 | backend/plustek-pp_image.c:1510-1551 | Where it is chosen at 600 dpi the whole green ring lies behind the memory, and no line at all is right |
| ColorLines.SetupForPreview | backend/plustek-pp_image.c:1421-1426 | About the addresses only (the reader is never chosen for such lines): with the preview lags exactly every third line would be right |
| ColorLines.SetupGoesWrong | backend/plustek-pp_image.c:1510-1551 | Concrete failure in 48-bit colour at 600 dpi: planes of 8400 bytes are read through the rings, every green line is written to byte 226800 and up of a memory of 132000, and no line is right |
| RingSlots.Distinct | backend/plustek-pp_image.c:207-235 | Lines less than a ring apart never share a slot |
| RingSlots.Next | backend/plustek-usb.c:1472-1476 | The wrap-around test computes the next slot |
| LineSampling.SampleStep | backend/plustek-usb.c:1454-1464 | A raw line is taken if and only if it is the one the closed form names, and the running sum stays in range |
| LineSampling.TakenCount | backend/plustek-usb.c:1454-1464 | How many lines are taken of the first n raw ones |
| LineSampling.Sampler.SampleLine | backend/plustek-pp_image.c:169-180 | The parallel-port sampler obeys the same law: line k taken is raw line ceil(k * phy / app) |
| UsbLines.Prepare | backend/plustek-usb.c:1228-1300 | Start pointers for all six sensor orders, for any buffer: the colour named first at the beginning, the others one and two row distances behind, each at its place in the pixel, red and blue exchanged for BGR |
| UsbLines.StartsObeyLawExactly | backend/plustek-usb.c:1228-1300 | The start pointers obey the law of the get pointers if and only if the buffer has more lines than the sensor rows are apart |
| UsbLines.StartsInOrder | backend/plustek-usb.c:1235-1285 | The start lines in the order the sensor names, exchanged for BGR |
| UsbLines.MovedIsNext | backend/plustek-usb.c:1472-1488 | One wrapping pointer step is the next line of the law, inside the buffer |
| UsbLines.PointersObeyLaw | backend/plustek-usb.c:1467-1493 | CCD mode: after n lines each pointer is begin + shift + ((start + n) mod L) * PhyBytes |
| UsbLines.GrayObeysLaw | backend/plustek-usb.c:1467-1493 | A gray scan moves the green pointer only, by the same law |
| UsbLines.LawInNumbers | backend/plustek-usb.c:1467-1493 | The law: begin + shift + (line mod buffer lines) * line bytes, for each colour |
| UsbLines.OneChannelPointers | backend/plustek-usb.c:1495-1511 | One-channel mode: the thirds follow the sensor order up to the first wrap-around, and are red, green, blue from then on |
| UsbLines.OneChannelLawExactly | backend/plustek-usb.c:1495-1511 | Hence the law holds at line n if and only if the order is red first or the buffer has not been walked through once |
| UsbLines.Reader.AdjustPointers | backend/plustek-usb.c:1467-1511 | The pointer updates after a line, with the reset of one-channel mode |
| UsbLines.Reader.TakeIfDue | backend/plustek-usb.c:1444-1465 | A line is handed to the user exactly when the law says so, on a running sum of 16 bits |
| UsbLines.Reader.ReadLine | backend/plustek-usb.c:1425-1528 | Hands over one line, also with reads that bring nothing: line k is the raw line of the closed form, from the addresses of the pointer law; it aborts exactly at the first raw line at which the user has cancelled |
| UsbLines.UserLineAddress | backend/plustek-usb.c:1425-1528 | Composition of both laws: every colour of user line u comes from the ring address of raw line ceil(u * phy / user), or u if no line is left out |
| UsbLines.ReadPicture | backend/plustek-usb.c:1425-1528 | Whole colour picture from the set-up on: as many lines as asked for, each from those addresses, unless the user cancels, and then up to that raw line |
| UnsharpFilter.AlignedExactly | backend/plustek-pp_image.c:529-547 | At the n-th filter call the pointers name previous, current and newest line if and only if n is below the number of lines announced |
| UnsharpFilter.RingState | backend/plustek-pp_image.c:518-547 | State of the three-slot ring at every call: aligned before the line that is stored twice, and permanently one slot off after it |
| UnsharpFilter.SlotsHoldExactly | backend/plustek-pp_image.c:518-525 | The three slots hold their lines for all contents if and only if a line has at most 5120 bytes; if it has more, the third slot runs past the buffer |
| UnsharpFilter.AnswersRight | backend/plustek-pp_image.c:529-604 | Up to the end of the picture the filter over a line that fits its slot delivers the promised line |
| UnsharpFilter.FirstFilteredLineExactly | backend/plustek-pp_image.c:518-604 | The first filtered line is the promised one for all pictures if and only if a line has at most 5120 bytes |
| UnsharpFilter.LongLinesGoWrong | backend/plustek-pp_image.c:518-604 | Concrete failure for every longer line: two gray lines that differ in their first pixel only; pixel 5118 comes out as 97 instead of 100 |
| UnsharpFilter.FullWidthFitsExactly | backend/plustek-pp_image.c:740-756 | Lines of 8.5 inches fit up to 602 dpi; at 1200 dpi they have 10200 bytes and the third slot ends 5080 bytes behind the buffer |
| UnsharpFilter.Filter.CopyToFilterBuffer | backend/plustek-pp_image.c:529-547 | First line stored twice, the last one counted, with 32-bit wrap-around of the counter; the exact contents of the buffer afterwards, for lines of any length |
| UnsharpFilter.Filter.DoFilter | backend/plustek-pp_image.c:567-604 | Filters in place over the line that was read, from what the buffer holds at the three pointers, then rotates them; for lines of any length |
| UnsharpFilter.Filter.DataIsReady | backend/plustek-pp_image.c:640-667 | For lines of any length: each later line is answered by the filter over the exact contents of the buffer, the first one by itself; the processing after the filter sees every line but the first, so that a halftone scan leaves the user buffer as it was at its first line |
| UnsharpFilter.ReadPicture | backend/plustek-pp_ptdrv.c:1113-1121 | Whole picture, for lines of any length what the buffer contents make of them; for lines that fit their slots every pixel but the last two is 53 times the pixel less its far neighbours over the weight left, cut to a byte, and unfiltered lines are as read; for halftone what the processing makes of it, the first line being what the user buffer held before |
| UnsharpFilter.DeliveredPixels | backend/plustek-pp_image.c:575-597 | Every delivered pixel but the last two in terms of its pixel and its eight neighbours, those that differ by more than 12 taken off |
| UnsharpMask.PixelIsSharpened | backend/plustek-pp_image.c:577-597 | The row-by-row computation equals the one over the list of eight neighbours |
| UnsharpMask.PixelIsMasked | backend/plustek-pp_image.c:551-597 | For all neighbours: (53 c - sum) / (53 - k) cut to a byte, over the k neighbours below c - 12 or above c + 12 |
| UnsharpMask.FarOnesExactly | backend/plustek-pp_image.c:551-563 | Taken off are exactly those neighbours, each as often as it is there |
| UnsharpMask.EvenNeighbours | backend/plustek-pp_image.c:551-597 | Eight equal neighbours leave a pixel alone if they differ by at most 12, darker or brighter; a pixel of 100 among zeros becomes 117 |
| UnsharpMask.AddsContrast | backend/plustek-pp_image.c:577-597 | The result is the pixel plus its total contrast with the far neighbours over the remaining weight, cut to a byte |
| UnsharpMask.FlatIsKept | backend/plustek-pp_image.c:551-563 | A pixel that no neighbour differs from by more than 12 is unchanged |
| UnsharpMask.ContrastOnlyGrows | backend/plustek-pp_image.c:577-597 | Without neighbours brighter by more than 12 a pixel never gets darker, without ones darker by more than 12 never brighter |
| GainSearch.Calibrator.AdjGainSetting | backend/plustek-usbcal.c:473-493 | One reading: from 53441 to 61439 nothing changes, above the gain becomes the upper end and is halved towards the lower, below the other way round; another scan is asked for while the ends are apart; nothing else changes |
| GainSearch.BudgetFalls | backend/plustek-usbcal.c:473-493 | For any reading the interval stays ordered, and asking for another scan uses up halvings |
| GainSearch.Calibrator.AdjustGainColor | backend/plustek-usbcal.c:561-637 | For arbitrary, even inconsistent readings the colour loop ends within 19 scans; for a steady monotone sensor it ends settled, each channel inside the window exactly if the search can reach it |
| GainSearch.Calibrator.AdjustGainGray | backend/plustek-usbcal.c:638-650 | The gray loop ends within 7 scans with the three registers alike, inside the window exactly if the search can reach it |
| GainSearch.SettledMeans | backend/plustek-usbcal.c:508-654 | If the search stops outside the window, no gain from 1 to 62 is in it |
| GainSearch.FoundExactly | backend/plustek-usbcal.c:508-654 | The search ends inside the window if and only if some gain from 1 to 62 is in it, or gain 63 is and the search started there |
| GainSearch.TopGainMissed | backend/plustek-usbcal.c:524-525 | Concrete sensor that only gain 63 satisfies: seven scans, and the search ends on 62 |
| OffsetSearch.RegisterRoundTrip | backend/plustek-usbcal.c:671-671 | Six-bit encoding of the signed offset is undone by sign extension |
| OffsetSearch.BudgetFalls | backend/plustek-usbcal.c:660-733 | For any average and zero count, -32 <= low <= now <= high <= 31 despite truncating division; a finished channel stays finished; asking again uses up halvings |
| OffsetSearch.ZeroPixelsNeverRaise | backend/plustek-usbcal.c:699-716 | The rule announced as raising the offset never raises it, and when it leaves it unchanged |
| OffsetSearch.OnlyDownAfterZeros | backend/plustek-usbcal.c:708-708 | Once that rule has acted a channel only goes down |
| OffsetSearch.Calibrator.GetNewOffset | backend/plustek-usbcal.c:660-733 | One channel after any reading, in numbers: up to 16 too dark, from 2048 on too bright, more than 1 percent zero pixels, quotients cut toward zero; the register takes the six bits; the other channels are untouched |
| OffsetSearch.Calibrator.AdjustOffsetColor | backend/plustek-usbcal.c:813-920 | The colour loop ends within 16 scans for any readings, and the registers hold the six bits of the offsets found; without the zero-pixel rule these are acceptable exactly if an acceptable one can be reached |
| OffsetSearch.Calibrator.AdjustOffsetGray | backend/plustek-usbcal.c:884-930 | The gray loop ends within 6 scans with the three registers alike |
| OffsetSearch.FoundExactly | backend/plustek-usbcal.c:750-935 | Without the zero-pixel rule the search ends on an acceptable black level if and only if some offset from -31 to 30 gives one |
| OffsetSearch.ZeroRuleGainsNothing | backend/plustek-usbcal.c:699-716 | Where zero pixels get fewer with higher offsets, the searches with and without that rule are on good offsets after the same scans, and once the rule has acted its search is never on one |
| Calibration.Scanner.PrepareToReadWhiteCal | backend/plustek-usbcal.c:105-143 | Success exactly if all hardware calls succeed; then the lamp is on and, from strip state 0, the sensor on the shading strip, unless a sheet-fed device was told not to move |
| Calibration.Scanner.PrepareToReadBlackCal | backend/plustek-usbcal.c:147-176 | Always reports success; the sensor is ready for a dark reading if and only if no hardware call failed |
| Calibration.Scanner.LampOnAfterCalibration | backend/plustek-usbcal.c:180-197 | The lamp is on afterwards whatever fails |
| Calibration.Scanner.Coarse | backend/plustek-usbcal.c:1235-1269 | Wait for paper, then white, dark, white, each under its safe circumstances; it succeeds if no hardware call fails |
| Calibration.Scanner.Fine | backend/plustek-usbcal.c:1300-1345 | Dark then white for every resolution of at least 50 dpi; it succeeds if no hardware call fails |
| Calibration.Scanner.DoCalibration | backend/plustek-usbcal.c:1193-1384 | Whole runs of flatbed and sheet-fed devices: every white reading with the lamp on, on a flatbed at the shading strip, whatever fails; every dark reading safe if no call fails; a run without a failed call succeeds; a successful one takes the promised readings and ends lamp on, strip state 0, flags restored (plus the bypass flag on a sheet-fed device without fine calibration) and, on a flatbed if no call failed, at home |
| Calibration.RunIsPromised | backend/plustek-usbcal.c:1229-1345 | The readings of a successful run case by case: the coarse triple exactly if it is not skipped; outside calibration mode one fine pair unless the device is sheet-fed or the cache is on and filled from a file; in that mode one pair for each resolution 1 to 8 of at least 50 dpi if the depth is 8 |
| ScaleX.CountIsProduced | backend/plustek-pp_scale.c:108-122 | The number of output pixels is a closed form of the number of input pixels |
| ScaleX.ScaleBytes | backend/plustek-pp_scale.c:124-143 | Output pixel k is input pixel floor(k * izoom / 1000) for every pixel that is produced and fits; the rest is untouched |
| ScaleX.ScaleBits | backend/plustek-pp_scale.c:102-122 | The same law bit by bit, most significant bit first, rest zero, over a line and the memory behind it, and how many bytes of that the loop reads |
| ScaleX.TailIrrelevantExactly | backend/plustek-pp_scale.c:102-122 | The output is the same for all memory behind the line if and only if the source of the last bit that is produced and fits lies inside the line |
| ScaleX.SameOutput | backend/plustek-pp_scale.c:102-122 | Two runs over such a line deliver the same bytes whatever lies behind it |
| ScaleX.WideningReads | backend/plustek-pp_scale.c:102-122 | When lines are made wider the loop reads outside the line if and only if it is told of more bytes than the line has, and its output does not depend on them |
| ScaleX.LineartReadsPast | backend/plustek-pp_ptdrv.c:1130-1137 | A call of the driver that reads past its buffer, with the right output: 8.5 inches of lineart at 1200 dpi |
| ScaleX.Scale | backend/plustek-pp_scale.c:65-145 | All data types in numbers: byte t of pixels of 1, 3 or 6 bytes, or bit q of a line with the memory behind it, comes from pixel floor(k * izoom / 1000) as far as pixels are produced; unsupported types are copied |
| LongRand.NextLongRand | backend/plustek-pp_misc.c:111-130 | For every seed from 0 to 2^31 - 1 the 32-bit computation equals 16807 * seed mod (2^31 - 1) if and only if the seed is not 2^31 - 1 |
| LongRand.StepUndone | backend/plustek-pp_misc.c:106-108 | Multiplication by 1407677000 undoes a step |
| LongRand.Generator.Seed | backend/plustek-pp_misc.c:134-137 | Which seeds put the generator into its proper states |
| LongRand.Generator.LongRand | backend/plustek-pp_misc.c:365-370 | Each call makes one step, and proper states stay proper |
| LongRand.RunInjective | backend/plustek-pp_misc.c:365-370 | Two runs of equal length that meet started together |
| LongRandPeriod.Order | backend/plustek-pp_misc.c:98-98 | n calls fix every proper state if and only if 2^31 - 2 divides n |
| LongRandPeriod.FullPeriod | backend/plustek-pp_misc.c:98-98 | From any proper seed the state comes back exactly after multiples of 2^31 - 2 calls, as promised |
| LongRandPeriod.EveryStateReached | backend/plustek-pp_misc.c:98-98 | From any proper seed every proper state is reached |
| MemoryProbe.Probe | backend/plustek-pp_p48xx.c:133-194 | For arbitrary wiring of the 64 banks the count is the number of banks before the first that is absent or bank 0 again |
| MemoryProbe.MirroredIsCounted | backend/plustek-pp_p48xx.c:125-132 | On RAM mirrored modulo N the count is N for every N from 1 to 64, and 64 only without mirrors |
| MemoryProbe.DoTest | backend/plustek-pp_p48xx.c:110-270 | No device exactly if bank 0 does not answer; for arbitrary wiring the model by the number of banks and the register, on mirrored RAM from its size |
| MemoryProbe.TestBank | backend/plustek-pp_p48xx.c:136-193 | One bank: the loop stops exactly if the bank is absent or mirrors bank 0 |

## Left out

- Register and parallel-port traffic, delays, timers, signals, `ioctl` copying: a device is an arbitrary
  sequence of readings, polls or successes, and a download to the ASIC is one step.
- Floating point: gamma maps and the white-shading coefficients of the fine calibration.
- How single averages and maxima are computed from a scanned line in `cano_AdjustGain` and
  `cano_AdjustOffset`: the searches take them as arbitrary numbers.
- `cano_AdjustLightsource`: in a calibration run it is a white reading that may fail.
- Early returns of the gain and offset searches on values given by the frontend or on a cancelled scan.
- The speed test and the warm-up in `cano_DoCalibration`: both may leave the sensor anywhere, and the result
  of the former is ignored.
- What the data processing of halftone scans computes: an arbitrary function of the line and of how many
  were processed before.
- The P96 motor functions, `motorP98PositionYProc` and the half-step table: the same shape as the P98 code
  that is modelled.
- The 4- and 16-line modes and transparency scans of the 98001 shading calibration: without the 32-line mode
  the kept extremes are not refreshed. Likewise shading without memory for the extremes, a plain mean.
- What follows the averages on ASIC 98003 (dark offset, gain, packing): one expression per value.
- Sensor pixels: a line is a channel and an index in `ColorLines`, where only the order of lines matters.
- Black and white thresholds, gamma tables, model presets and register constants.
- Calibration.Scanner.DoCalibration: the end position is the home position only if no hardware call failed,
  because the source ignores the result of the last move; on a sheet-fed device it is not stated where on the
  sheet a white reading is taken, as there is no home position to count from.
- GainSearch.Calibrator.AdjustGainColor: starting gains are 1 to 63, as the presets are.
- ScaleX.Scale: memory behind the input line is part of the input; the resolution ratio is 1 to 1000000; for 0 the source divides by zero, and beyond that its
  loop does not end.
- LineSampling.Sampler.constructor: resolutions are below 32768 dpi, so that the 16-bit sum does not wrap.
- UsbLines.ReadPicture: the buffer has more lines than the sensor rows are apart; otherwise the start pointers
  leave it (`UsbLines.StartsObeyLawExactly`).
- MotorRing.Motor.GoFullStep: while entries are still to be loaded, an ASIC that would lap the driver is held at
  the last state before that; afterwards it is not held. A refill reads the state it was called for. The end is
  stated exactly for looks at most 24 states apart while entries may be left to load.
- OffsetSearch.FoundExactly: readings that do not fall with the offset, and the gain and offset searches of a
  sensor that is not steady, end in time but are promised nothing else.
- UnsharpFilter.Filter.constructor: lines have at least two bytes; for fewer the length of the filter loop
  wraps. What lies behind the buffer is taken to keep what is stored there.
- ColorLines.RingReader.ReadToDriver: what is written behind the driver memory counts as lost, and what is
  read from there as no line of the scanner.
- UsbLines.Reader.constructor: where lines are left out, the two resolutions add up to at most 65536, so that
  the 16-bit sum does not wrap.
