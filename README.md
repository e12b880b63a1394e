# Falling petals on LED grids, in Dafny

This project models the animation logic of the *lightgrids* scripts. They show "falling petals" on small LED matrices.

- **The discrete petal engine** (`lib/layeredpetalbit.py`, repeated almost verbatim in `lib/petalbit.py`). A petal is an integer pixel with a brightness, a decay rate and a `dead` flag.
  - An `Edge` chooses the side petals spawn on and the direction gravity pulls them.
  - A `Wind` runs a two-state gust process: a countdown and a held strength.
  - A `Layer` owns a petal list and draws, decays, drops, cleans and blooms it.
  - A `LayeredPetalDisplay` splits a brightness range into brackets, builds one layer per bracket and runs every layer's pipeline once per frame. Only the first layer is gusted.
  - `lib/petalbit.py` adds the single-population `PetalDisplay` and the per-frame body of its `main` loop.
- **The Pico Scroll petal** (`pico_scroll_petals.py`). A petal has a real-valued position, drawn as a bilinear 2×2 blend that wraps round the grid.
  - It walks by popping lazily refilled step queues.
  - Buttons A and B add and remove petals; buttons X and Y raise and lower the maximum brightness.
- **The brightness chooser** (`lib/heartbit.py`).
  - `pattern_to_tuples` parses a bitmap string.
  - `button_held` runs an accelerating, clamped brightness loop.
  - `transition` fades between two brightnesses.

Each file of the model follows one part of the source:

| file | module | models |
|---|---|---|
| `sink.dfy` | `Sink` | the LED driver: every call becomes an event appended to a ghost log |
| `edges.dfy` | `Edges` | `Edge` |
| `petals.dfy` | `Petals` | the discrete `Petal` (a class) and its state as a value, and the dead-petal filter |
| `gusts.dfy` | `Gusts` | `Wind` (a class) and the gust process on values |
| `layers.dfy` | `Layers` | `Layer` (a class) and `more_blooms` |
| `layered.dfy` | `Layered` | `LayeredPetalDisplay` (a class) and the bracket computation |
| `flat.dfy` | `Flat` | `PetalDisplay` and one frame of `lib/petalbit.py`'s `main` loop |
| `buttons.dfy` | `Buttons` | a sequence of button readings |
| `heart.dfy` | `Heart` | `lib/heartbit.py` |
| `scroll.dfy` | `Scroll` | `pico_scroll_petals.py` |

## How the model is built

- **Mutation stays mutation.** Objects whose fields the source updates are Dafny classes, and their methods carry `modifies` clauses:
  - the petals of both kinds;
  - `Wind`, `Layer`, `LayeredPetalDisplay` and `PetalDisplay`;
  - the state of the `main` loop (`Flat.Loop`);
  - the module-level state of the Pico script (`Scroll.Scene`).
- **Every method is specified by a function on values.** Examples are `Petals.Decayed`, `Layers.Layer.FrameValues`, `Gusts.NextGust`, `Scroll.Walked` and `Heart.Held`. The properties the source promises are then proved about those functions.
- **Randomness is input.** Every `random.random()`, `randint`, `choice` or `randrange` becomes a value the caller passes in. Examples are `Gusts.GustDraw`, `Layers.LayerDraws`, `Flat.TickDraws`, `Scroll.DropDraws` and `Scroll.StepInputs`. A precondition keeps each value inside the range the library call documents.
- **Button readings are input.** A button that is held is a sequence of readings, and the loop holding it ends at the first release (`Buttons.FirstRelease`).
- **The display is a log.** It is `Sink.Display`: constant `width`/`height` and a ghost log of `Pixel`, `Fill`, `Frame`, `Clear`, `Text` and `Show` events. Every drawing method states the exact events it appends.
- **Floats are exact reals.** Python's float `%` with a positive modulus is `Scroll.RealMod`. `math.modf` is `Scroll.Trunc` and `Scroll.Frac`.

Some behaviours of the code are easy to misread. The model follows the code:

- **Decay is rarely skipped.** `Layer.decay` skips a petal only when its draw is above 0.9, so about 90% of petals decay each frame and only about 10% are skipped (`Layers.DecayAll`).
- **The brackets overlap.** For three layers over 10..200 they are 10, 73, 136, 199 (`Layered.MainBrackets`). The bands `[10,73]`, `[73,136]`, `[136,199]` share their endpoints, and 200 is never reached. They are not a partition.
- **The pen includes width and height.** It spans `[0, width]` or `[0, height]` inclusive (`Edges.Edge.PixelPen`).
- **The off-grid test lets the far edge through.** `Petal.draw` uses the strict test `x > width`, so a petal at `x == width` is still drawn. Nothing culls negative coordinates, and the discrete engine does not wrap.
- **Decay undoes the off-grid mark.** Decay recomputes `dead` from the brightness alone, so the mark set by `draw` is erased whenever decay runs (`Petals.DecayClearsOffGridMark`).
  - In `lib/petalbit.py` every petal decays after it is drawn. An off-grid petal therefore lingers until it fades (`Flat.SurvivorsAreLit`, `Flat.OffGridPetalLingers`).
  - In the layered engine an off-grid petal is removed only on the frames where its decay is skipped.
- **`more_blooms` is inverted.** It holds when the draw is *above* the chance, so a higher chance means fewer blooms (`Layers.MoreBlooms`).
- **The Pico script never calls `Petal.drop`.** It is modelled all the same (`Scroll.Petal.Drop`). Its drift steps are prepended while `pop()` takes from the end, so drift steps are used only after the queued fall values (`Scroll.DroppedShape`).

## Model

| member | source | states |
|---|---|---|
| `Edges.Edge.Orientation` | lib/layeredpetalbit.py:55-62 | Which branch of the if/elif chain on `side` is taken. 0, 1 and 2 select top, bottom and left. Every other value, not only 3, takes the right branch. |
| `Edges.Edge.PixelPen` | lib/layeredpetalbit.py:44-62 | The inclusive spawn ranges, the same as lib/petalbit.py:44-62. For top and bottom, x spans `[0, width]` and y is pinned at 0 or `height`. For left and right, y spans `[0, height]` and x is pinned at 0 or `width`. |
| `Edges.Edge.ApplyGravity` | lib/layeredpetalbit.py:64-73 | One gravity step: y steps +1 for top and −1 for bottom, x steps +1 for left and −1 for right. The other coordinate is unchanged. |
| `Edges.GravityIsUnitStep` | lib/layeredpetalbit.py:64-73 | For any side value, exactly one coordinate moves, by exactly one. |
| `Edges.GravityLeavesSpawnLine` | lib/layeredpetalbit.py:44-73 | On a grid of at least 1×1, one gravity step takes a petal spawned on the pen off the pen and keeps it inside the grid. Gravity points inward from the spawn edge. |
| `Petals.Decayed` | lib/layeredpetalbit.py:21-24 | Decay on values. The brightness becomes `max(0, brightness − decay_rate)`. `dead` holds exactly when the new brightness is 0. Position and rate are kept. |
| `Petals.Marked` | lib/layeredpetalbit.py:26-29 | `draw` sets `dead` exactly when `x > width` or `y > height` and changes nothing else. A petal already dead stays dead. |
| `Petals.DrawWrites` | lib/layeredpetalbit.py:26-30 | `draw` writes nothing off the grid. Otherwise it makes exactly one write, `(x, y, brightness)`. |
| `Petals.Dropped` | lib/layeredpetalbit.py:193-199 | A petal either stays put or takes exactly one `apply_gravity` step (also lib/petalbit.py:164-169). Brightness, rate and flag are kept. |
| `Petals.Gusted` | lib/layeredpetalbit.py:119-126 | A blown petal moves by 0 or by the gust strength: along x when gravity runs along y, along y otherwise. The other coordinate, brightness, rate and flag are kept. |
| `Petals.DecayNeverBrightens` | lib/layeredpetalbit.py:22 | With non-negative brightness and rate, decay never raises the brightness and never takes it below 0. |
| `Petals.DecayClearsOffGridMark` | lib/petalbit.py:217-220 | Decay right after draw gives the same petal as decay alone. It is dead exactly when its brightness has reached 0, so the off-grid mark is gone. |
| `Petals.DecayedTimesBrightness` | lib/layeredpetalbit.py:21-24 | After n decays the brightness is `max(0, b − n·r)`. The petal is dead exactly when `n·r ≥ b`, and the rate is kept. |
| `Petals.TenDecaysOfTen` | lib/layeredpetalbit.py:21-24 | A petal of brightness 10 and rate 1 is lit after 9 decays and dead, at brightness 0, after 10. |
| `Petals.Petal.constructor` | lib/layeredpetalbit.py:11-19 | A petal with the given position, brightness and rate, not dead. |
| `Petals.Petal.Decay` | lib/layeredpetalbit.py:21-24 | The new state is `Decayed` of the old one. It returns the new brightness, which is never negative. |
| `Petals.Petal.Draw` | lib/layeredpetalbit.py:26-30 | The new state is `Marked` of the old one. The log grows by exactly `DrawWrites` of the old state. |
| `Petals.LiveObjects` | lib/layeredpetalbit.py:178 | The comprehension `[p for p in petals if not p.dead]` returns only petals of the list, each not dead, and is never longer. |
| `Petals.LiveObjectsValues` | lib/layeredpetalbit.py:178 | Filtering the objects and then reading their states equals filtering their states. |
| `Petals.LiveKeepsExactlyLive` | lib/layeredpetalbit.py:178 | The filter removes every dead state. It keeps every live one as often as it occurs in the input. |
| `Petals.LivePreservesOrder` | lib/layeredpetalbit.py:178 | Filtering a concatenation gives the concatenation of the filtered parts, so the order is kept. |
| `Petals.LiveLength` | lib/layeredpetalbit.py:178 | The filter never lengthens the list. |
| `Petals.LiveOfAllLive` | lib/petalbit.py:225 | A list with no dead petal passes the filter unchanged. |
| `Petals.MarkAll` | lib/layeredpetalbit.py:180-183 | A draw pass marks each petal by its own position and nothing else. |
| `Petals.DrawLogOnGrid` | lib/layeredpetalbit.py:180-183 | Every write of a draw pass is a pixel with `x ≤ width` and `y ≤ height`. It carries the position and brightness of one of the petals drawn. |
| `Gusts.NextGust` | lib/layeredpetalbit.py:108-129 | A failed gust check changes nothing. Otherwise the countdown becomes one less than the drawn duration when `gust_blowing < 1`, and one less than before when a gust is already blowing. When a new gust starts (the check passes and `gust_blowing < 1`), the strength becomes the drawn strength. At no other time does it change. |
| `Gusts.BlowAll` | lib/layeredpetalbit.py:119-126 | Each petal is blown with its own miss draw, in place in the list. |
| `Gusts.GustHeld` | lib/layeredpetalbit.py:111-129 | A gust holds its strength. Over any run of calls of which at most `gust_blowing` pass the gust check, the strength is unchanged. The countdown falls by exactly the number of calls that passed. |
| `Gusts.StrengthStaysInRange` | lib/layeredpetalbit.py:113-117 | The strength stays in `[−m, m]` over any run of calls, when it starts there and every new gust draws from that range. |
| `Gusts.Wind.constructor` | lib/layeredpetalbit.py:88-104 | The settings are stored. No gust is blowing and the strength is 0. |
| `Gusts.Wind.Blow` | lib/layeredpetalbit.py:106-129 | The new gust state is `NextGust`. A failed gust check leaves every petal as it was. A passed gust check blows the petals with the strength the wind now holds. A new gust's strength lies in `[−gust_strength_max, gust_strength_max]`. |
| `Layers.MoreBlooms` | lib/layeredpetalbit.py:289-291 | `more_blooms` holds when the draw is above the chance. A draw in `[0, 1)` never blooms at chance ≥ 1. A non-negative draw always blooms at a negative chance. A bloom at chance ≥ 0 needs a positive draw. |
| `Layers.MoreBloomsAntitone` | lib/layeredpetalbit.py:289-291 | Raising the chance can only turn a bloom into no bloom. |
| `Layers.DecayAll` | lib/layeredpetalbit.py:185-191 | `Layer.decay` on values. Each petal is left alone when its draw is above 0.9, is decayed otherwise, and is never touched in any other way. |
| `Layers.DropAll` | lib/layeredpetalbit.py:193-199 | `Layer.drop` on values. Each petal takes its own drift draw and either stays or takes one gravity step. |
| `Layers.DecayDropChangeOneThingEach` | lib/layeredpetalbit.py:185-199 | Decay never moves a petal and never changes its rate. Drop never changes its brightness or its flag. |
| `Layers.Layer.constructor` | lib/layeredpetalbit.py:133-162 | Every setting is stored as given, as is the petal list. The asserted `0 ≤ min ≤ max ≤ 255` makes the sort a no-op. |
| `Layers.Layer.Bloom` | lib/layeredpetalbit.py:164-174 | A fresh, live petal built from the draws. The precondition puts the draws on the pen, in the layer's band and in the rate range. |
| `Layers.Layer.CleanPetals` | lib/layeredpetalbit.py:176-178 | The list becomes exactly the petals not marked dead, in their order. Its states are the filtered old states. |
| `Layers.Layer.Draw` | lib/layeredpetalbit.py:180-183 | Every petal is marked. The log grows by the writes of the petals in list order. |
| `Layers.Layer.Decay` | lib/layeredpetalbit.py:185-191 | The petals' states become `DecayAll` of the old states. |
| `Layers.Layer.Drop` | lib/layeredpetalbit.py:193-199 | The petals' states become `DropAll` of the old states. |
| `Layers.Layer.GenerateBlooms` | lib/layeredpetalbit.py:201-208 | The list is only appended to, and its old prefix is unchanged. When `more_blooms` holds, it grows by one fresh petal per draw, in order. Otherwise it is left alone. |
| `Layers.Layer.Blooms` | lib/layeredpetalbit.py:207 | One fresh petal per draw, all distinct, in draw order. |
| `Layers.Layer.FrameValuesShape` | lib/layeredpetalbit.py:180-208 | After draw, decay, drop, clean and bloom, no petal of the layer is dead. The list holds at most the old petals plus the new ones. The new petals come last, each on the pen, in the band and in the rate range. |
| `Layers.Layer.Frame` | lib/layeredpetalbit.py:279-283 | The calls draw, decay, drop, `clean_petals`, `generate_blooms`, in this order. The new states are the frame function of the old ones. The log grows by the draw pass. Every petal afterwards is an old one or a fresh one. |
| `Layers.Layer.Gust` | lib/layeredpetalbit.py:210-212 | As `Wind.blow` on this layer's petals. |
| `Layered.FloorDiv` | lib/layeredpetalbit.py:239 | Python's `//`: the quotient q with `q·b ≤ a < q·b + b` for a positive divisor, and the mirror image for a negative one. |
| `Layered.PyRangeElements` | lib/layeredpetalbit.py:235-241 | `range(start, stop, step)` with a positive step holds exactly `start + k·step` for every k with that value below `stop`, in order. |
| `Layered.Brackets` | lib/layeredpetalbit.py:235-241 | Computing the brackets fails exactly when the layer count is 0 (ZeroDivisionError) or the step is 0 (ValueError from `range`). |
| `Layered.BracketsShape` | lib/layeredpetalbit.py:235-241 | With n ≥ 1 layers and a positive step, the brackets start at min and rise by the step. They stay within `[min, max]`. There are at least n + 1 of them, so `brackets[num + 1]` exists for every layer. |
| `Layered.MainBrackets` | lib/layeredpetalbit.py:318-326 | `main`'s three layers over 10..200 give the brackets `[10, 73, 136, 199]`. |
| `Layered.TooManyLayers` | lib/layeredpetalbit.py:235-241 | Three layers over 10..12 give a zero step, and `range` raises. |
| `Layered.FramedPrefixRest` | lib/layeredpetalbit.py:278-286 | While `draw`'s loop is at layer n, the layers from n on still hold their states from the start of the frame. |
| `Layered.FramedPrefixDone` | lib/layeredpetalbit.py:278-286 | Once the loop has passed layer k, that layer holds its frame, followed by the gust when k is the first layer. |
| `Layered.LayerAfterFrameLive` | lib/layeredpetalbit.py:278-286 | Whatever the draws, a frame leaves no dead petal in any layer, the gusted first layer included. |
| `Layered.LayeredPetalDisplay.constructor` | lib/layeredpetalbit.py:216-243 | The settings are stored, the brackets are the computed range, and there are no layers yet. |
| `Layered.LayeredPetalDisplay.NewLayer` | lib/layeredpetalbit.py:254-268 | A fresh layer. Its band runs from `brackets[num]` to `brackets[num + 1]`, with decay maximum 10, drift chance 0.5 and the display's bloom settings. Its petals are the seeding blooms when `more_blooms` held, and none otherwise. |
| `Layered.LayeredPetalDisplay.AddLayer` | lib/layeredpetalbit.py:253-270 | One loop iteration appends the layer built for bracket `num`. |
| `Layered.LayeredPetalDisplay.BuildLayers` | lib/layeredpetalbit.py:253-270 | The loop appends exactly `num_of_layers` fresh layers, the k-th built for bracket k from its seeding draws. |
| `Layered.LayeredPetalDisplay.CreateLayers` | lib/layeredpetalbit.py:251-272 | Layers are appended after any existing ones, which stay. There is one new layer per bracket, in bracket order. The method returns the whole list. |
| `Layered.LayeredPetalDisplay.FrameOf` | lib/layeredpetalbit.py:279-283 | Framing layer i replaces only that layer's states, by its frame function. No other layer's petal list changes. |
| `Layered.LayeredPetalDisplay.GustFirst` | lib/layeredpetalbit.py:285-286 | The gust reaches the first layer only. Its states are blown or kept as the gust check decides. |
| `Layered.LayeredPetalDisplay.DrawLayer` | lib/layeredpetalbit.py:278-286 | One loop iteration moves `draw` from the states after `layers[..i]` to those after `layers[..i + 1]`, and from the log after i draw passes to the log after i + 1. |
| `Layered.LayeredPetalDisplay.DrawLayers` | lib/layeredpetalbit.py:278-286 | The `for layer in self.layers` loop reaches the states and log of the whole frame. The wind makes exactly one gust step. |
| `Layered.LayeredPetalDisplay.Draw` | lib/layeredpetalbit.py:274-286 | Every layer in list order draws, decays, drops, cleans and blooms. The first layer is gusted after its own bloom and before the next layer. The log is the draw passes in layer order. The wind makes one gust step. |
| `Flat.PetalDisplay.constructor` | lib/petalbit.py:133-148 | The settings are stored without any check. |
| `Flat.PetalDisplay.Bloom` | lib/petalbit.py:150-162 | A fresh, live petal from draws on the pen, in `[min, max]` and in `[0, decay max]`. |
| `Flat.PetalDisplay.Drop` | lib/petalbit.py:164-169 | The petal stays put or takes exactly one gravity step. |
| `Flat.PetalDisplay.Gust` | lib/petalbit.py:171-173 | As `Wind.blow` on the given petals. |
| `Flat.SpawnFitsNeedsBand` | lib/petalbit.py:150-162 | On a grid of non-negative size, some draws fit a bloom exactly when `min ≤ max` and `0 ≤ decay max`, that is, when `randint` would not raise. |
| `Flat.MoveAll` | lib/petalbit.py:217-220 | Each petal of the pass is drawn, decayed and dropped by its own drift draw. |
| `Flat.MovedDiesOnlyFaded` | lib/petalbit.py:217-220 | After the pass a petal is dead exactly when its brightness did not outlast its rate. Being off the grid plays no part. |
| `Flat.FrameIndex` | lib/petalbit.py:214 | `False` and `True` select frames 0 and 1. |
| `Flat.RegrownShape` | lib/petalbit.py:225-232 | After the filter and the blooms no petal is dead, and the new petals come last, in draw order. |
| `Flat.BlowKeepsPlumage` | lib/petalbit.py:119-126 | The gust moves petals only. Flags, brightness and rates are kept. |
| `Flat.LiveHasNoDead` | lib/petalbit.py:225 | No entry of the filtered list is dead. |
| `Flat.TickValuesShape` | lib/petalbit.py:213-239 | After a frame no petal is dead, even though the gust comes after the bloom. The last petals are the new ones, each in the brightness band and decay range. |
| `Flat.SurvivorsAreLit` | lib/petalbit.py:217-225 | Every petal whose brightness outlasts its rate survives the frame, wherever it is. Every survivor is still lit. |
| `Flat.OffGridPetalLingers` | lib/petalbit.py:217-225 | A petal one row below the grid with rate 0 is not drawn, and yet it survives the frame at full brightness. |
| `Flat.Loop.constructor` | lib/petalbit.py:186-211 | `main`'s set-up: a top edge, `Wind(0.2, 5, 0.4, 2)`, `PetalDisplay(200, 50, 20, 0.8)`, one bloomed petal, and frame `False`. |
| `Flat.Loop.Blooms` | lib/petalbit.py:228-231 | The comprehension makes one fresh petal per draw, in order. |
| `Flat.Loop.MovePetal` | lib/petalbit.py:218-220 | One petal's draw, decay and drop, with its one write or none. |
| `Flat.Loop.MoveEach` | lib/petalbit.py:217-220 | The `for` loop turns every state into its moved state. The log is the writes in list order. |
| `Flat.Loop.MovePass` | lib/petalbit.py:214-222 | Select the hidden frame, fill it with 0, run the pass, then show the frame. |
| `Flat.Loop.Regrow` | lib/petalbit.py:225-232 | The list becomes the live petals, followed by the new ones when `more_blooms` holds. |
| `Flat.Loop.Tick` | lib/petalbit.py:213-239 | One frame of `main`. The frame flag flips and the wind makes one gust step. The log is the frame's calls. The list is the gusted regrowth of the pass, of which `Flat.TickValuesShape` shows that no petal is dead. |
| `Buttons.FirstRelease` | lib/heartbit.py:206 | The first reading at which the button is up. Every earlier reading is down. |
| `Heart.SplitTokens` | lib/heartbit.py:81 | Every token of `str.split()` is non-empty and holds no whitespace. |
| `Heart.SplitFlattens` | lib/heartbit.py:81 | The tokens, joined, are the input with its whitespace removed. |
| `Heart.SplitSkipsLeadingSpace` | lib/heartbit.py:81 | Leading whitespace, such as indentation or blank lines, adds no token, so it cannot shift the row indices. |
| `Heart.SplitAtSpace` | lib/heartbit.py:81 | Splitting at a whitespace character gives the tokens before it followed by the tokens after it. |
| `Heart.RowCellsFacts` | lib/heartbit.py:82-84 | In one row, the cells listed are exactly the positions of `'1'`, left to right, one per `'1'`. |
| `Heart.GridCellsMembers` | lib/heartbit.py:81-84 | A cell `(r, c)` is listed exactly when row r exists, column c exists in it, and that character is `'1'`. |
| `Heart.GridCellsOrdered` | lib/heartbit.py:81-84 | The cells come in row-major order. |
| `Heart.GridCellsCount` | lib/heartbit.py:81-84 | There are as many cells as `'1'` characters in the rows. |
| `Heart.PatternCells` | lib/heartbit.py:80-85 | The three facts above, stated for the whole pattern string. |
| `Heart.PatternToTuples` | lib/heartbit.py:66-85 | The nested loop returns `(row, column)` for each `'1'` and nothing for any other character, in row-major order. There are as many results as `'1'`s in the pattern. |
| `Heart.Pixels` | lib/heartbit.py:211-212 | One write per cell, with the column as x and the row as y. |
| `Heart.DrawPattern` | lib/heartbit.py:211-212 | The loop writes exactly those pixels, in order. |
| `Heart.Clamp` | lib/heartbit.py:208 | `min(max(v, 0), 255)` lies in `[0, 255]`, is v inside it, and is the nearer end outside it. |
| `Heart.ButtonHeld` | lib/heartbit.py:203-218 | Up at the first reading: the brightness is returned unchanged and nothing is drawn. Otherwise the result lies in `[0, 255]` and is the brightness after the k-th pass, where pass k adds `k·step` and clamps. Each pass redraws the pattern in frame 0 and shows it. |
| `Heart.HeldMonotone` | lib/heartbit.py:206-215 | With a non-negative step no pass lowers the brightness. With a non-positive step no pass raises it. |
| `Heart.HeldAccelerates` | lib/heartbit.py:204-215 | While no clamp bites, k passes add `step·(1 + 2 + … + k)`. This holds for either sign of the step: button B's `step` and button A's `-step` (line 225). |
| `Heart.HeldFromTen` | lib/heartbit.py:203-218 | From 10 with step 5, nine passes reach 235, and the tenth is clamped to 255. |
| `Heart.FirstLevelBetween` | lib/heartbit.py:181-182 | The first transition level `old + (new − old) // 5` lies between the two brightnesses. Floor division makes it asymmetric: a rise of under 5 keeps the old level, but a fall of under 5 still lowers it by one. |
| `Heart.ShowFrames` | lib/heartbit.py:195-197 | Frames 1 to 6 are shown in turn. |
| `Heart.TransitionDrawsLevels` | lib/heartbit.py:185-193 | Every pixel of the transition is drawn at the first level or at the target brightness. Every fill uses the old brightness. Only frames from 1 on are selected. |
| `Heart.DrawTransitionFrame` | lib/heartbit.py:187-191 | Select the frame hidden, fill it with the old brightness, then draw its pattern. |
| `Heart.DrawTransitionFrames` | lib/heartbit.py:181-193 | The loop over `transition_frames[1:]`. Frame 1 is lit at the first level, every later frame at the target. |
| `Heart.ShowTransitionFrames` | lib/heartbit.py:195-197 | The show loop makes exactly the calls `frame(1)` … `frame(6)`. |
| `Heart.Transition` | lib/heartbit.py:178-200 | All of `transition`'s calls: the frames, the show loop, then frame 0 filled with the new brightness. |
| `Heart.ChooseRound` | lib/heartbit.py:222-231 | A dims and then B brightens. The transition plays exactly when the brightness changed. The brightness stays in `[0, 255]`, and a round with no press changes nothing. |
| `Scroll.Trunc` | pico_scroll_petals.py:51-53 | The integer part of `math.modf`, as `int()` keeps it, rounds toward zero. |
| `Scroll.Frac` | pico_scroll_petals.py:51-52 | The fractional part has the sign of the value and makes the value up together with the integer part. |
| `Scroll.RealMod` | pico_scroll_petals.py:89-90 | Python's float `%` with a positive modulus lies in `[0, w)`. |
| `Scroll.RealModUnique` | pico_scroll_petals.py:89-90 | The remainder is the one value in `[0, w)` that differs from the input by a whole multiple of w. |
| `Scroll.RealModKeeps` | pico_scroll_petals.py:89-90 | A value already in `[0, w)` is left alone. |
| `Scroll.RealModAdd` | pico_scroll_petals.py:89-90 | Reducing before an addition changes nothing after a second reduction, so successive walk steps add up modulo the width. |
| `Scroll.Grid` | pico_scroll_petals.py:44-77 | Four points, each on the grid `[0, w) × [0, h)`. |
| `Scroll.GridIsBlock` | pico_scroll_petals.py:55-75 | The points are the petal's cell and its right, lower and lower-right neighbours, wrapping round the edges. |
| `Scroll.GridWeights` | pico_scroll_petals.py:58-74 | The weights sum to 1. The right column carries the fractional part of x and the bottom row that of y: a bilinear split. |
| `Scroll.GridWeightsInUnit` | pico_scroll_petals.py:58-74 | For a non-negative position every weight lies in `[0, 1]`. |
| `Scroll.GridWholeCell` | pico_scroll_petals.py:51-77 | On whole coordinates the petal's own cell takes the full weight. |
| `Scroll.GridWeightNegative` | pico_scroll_petals.py:51-77 | A negative position breaks the unit range: at x = −0.5 the petal's own cell gets weight 1.5. |
| `Scroll.StepSize` | pico_scroll_petals.py:79-81 | A step is `k / (10 · steps_per_interval)` for the drawn k in `[−10, 9]`, so a whole interval moves by `k / 10`, between −1 and 0.9. |
| `Scroll.DropIncrement` | pico_scroll_petals.py:36 | The drop increment lies in `[0, 1 / steps_per_interval)`. |
| `Scroll.Repeat` | pico_scroll_petals.py:85 | `[v] * n` holds max(n, 0) copies of v. |
| `Scroll.WalkedShape` | pico_scroll_petals.py:83-91 | `walk` refills an empty queue with `steps_per_interval` copies of one fresh step and pops one step per axis from the end. The position stays on the grid. Equal-length queues stay equal, a queue of copies stays one, and the drop queues are untouched. |
| `Scroll.WalkFirst` | pico_scroll_petals.py:84-89 | The first walk of an interval draws the step, takes it and queues the other copies. |
| `Scroll.WalkOnQueue` | pico_scroll_petals.py:89 | A walk inside an interval takes the queued step. |
| `Scroll.WalkIntervalPrefix` | pico_scroll_petals.py:83-91 | The first j walks from an empty queue all move x by the step drawn first. |
| `Scroll.IntervalStep` | pico_scroll_petals.py:79-81 | `steps_per_interval` copies of one step add up to a tenth of its draw. |
| `Scroll.WalkInterval` | pico_scroll_petals.py:83-91 | After `steps_per_interval` walks from an empty queue, x has moved by exactly a tenth of the first draw, modulo the width, and the queue is empty again. |
| `Scroll.Queued` | pico_scroll_petals.py:94-108 | After the refills and the drift both drop queues are non-empty, so the pops cannot fail. |
| `Scroll.DroppedShape` | pico_scroll_petals.py:93-113 | `drop` keeps the two queues of equal length and the position on the grid. The value taken is the old last value, or the fall increment when the queue was empty, so a drift queued by this call is never taken at once. |
| `Scroll.Petal.constructor` | pico_scroll_petals.py:18-42 | A petal at the given position with empty queues and `drop_increment = r / steps_per_interval`. |
| `Scroll.Petal.Walk` | pico_scroll_petals.py:83-91 | The state becomes `Walked` of the old state, and the new position is returned. |
| `Scroll.Petal.Drop` | pico_scroll_petals.py:93-113 | The state becomes `Dropped` of the old state, and the new position is returned. |
| `Scroll.Petal.QueueDrops` | pico_scroll_petals.py:94-108 | The refills of the empty queues, then, on a drift, `drift_frames` steps prepended to `x_drops` and as many zeros to `y_drops`. |
| `Scroll.Scaled` | pico_scroll_petals.py:191 | `max_bright · weight` lies in `[0, max_bright]` for a weight in `[0, 1]`. |
| `Scroll.FloorInBand` | pico_scroll_petals.py:191 | `math.floor(max_bright · weight)` lies in `[0, max_bright]`. |
| `Scroll.CellWritesFacts` | pico_scroll_petals.py:186-191 | Every write drawn for a petal comes from one of its points with a non-zero weight, at `floor(max_bright · weight)`. |
| `Scroll.RenderLogOnGrid` | pico_scroll_petals.py:184-191 | Every render write is a pixel on the grid. |
| `Scroll.RenderLogLevels` | pico_scroll_petals.py:184-194 | When no petal has a negative coordinate, every level written lies in `[0, max_bright]`. |
| `Scroll.RenderSafe` | pico_scroll_petals.py:182-196 | With every petal on the grid, the clear, the writes and the show write only in-range pixels at in-range levels. |
| `Scroll.Decimal` | pico_scroll_petals.py:149 | The f-string digits of a count are decimal digits. There is one digit exactly when the count is below 10, and a leading zero only for 0 itself. |
| `Scroll.DecimalValue` | pico_scroll_petals.py:149 | Reading the digits back gives the count. |
| `Scroll.Brightened` | pico_scroll_petals.py:164-173 | Button X: `max_bright` stays in `[0, 255]` and the counter in `[1, 255]`. A press below the cap raises the brightness. A release resets the counter to 1. |
| `Scroll.Dimmed` | pico_scroll_petals.py:176-180 | Button Y: `max_bright` stays in `[0, 255]` and the counter in `[1, 255]`. A press above 0 lowers the brightness. A release resets the counter to 1. |
| `Scroll.Scene.constructor` | pico_scroll_petals.py:115-133 | The module-level state: the given petals, `max_bright` 7, and both counters at 1. |
| `Scroll.Scene.Announce` | pico_scroll_petals.py:148-150 | Clear, show the text `"{count}P"`, then show. |
| `Scroll.Scene.PressA` | pico_scroll_petals.py:139-151 | One reading of A appends one fresh petal at the drawn cell, then announces the new count. |
| `Scroll.Scene.HoldA` | pico_scroll_petals.py:138-151 | The loop appends one petal per reading until the release, and announces each count. |
| `Scroll.Scene.AddPetals` | pico_scroll_petals.py:138-151 | The old petals are kept in place. The new ones are fresh, at their drawn cells, in order. |
| `Scroll.Scene.PressB` | pico_scroll_petals.py:155-161 | One reading of B removes the oldest petal if there is one, then announces the count. |
| `Scroll.Scene.HoldB` | pico_scroll_petals.py:154-161 | The loop removes `min(readings, count)` petals from the front. |
| `Scroll.Scene.RemovePetals` | pico_scroll_petals.py:154-161 | The list becomes a suffix of the old one, shorter by the number of readings or emptied, and it stays on the grid. |
| `Scroll.Scene.Brighter` | pico_scroll_petals.py:164-173 | Button X updates the counters as `Brightened` does, and shows "MAX" exactly when a press reaches 255. |
| `Scroll.Scene.Dimmer` | pico_scroll_petals.py:176-180 | Button Y updates the counters as `Dimmed` does. |
| `Scroll.Scene.DrawPoints` | pico_scroll_petals.py:186-194 | One petal's writes, skipping the points of zero weight. |
| `Scroll.Scene.DrawAll` | pico_scroll_petals.py:184-194 | Every petal's writes, in list order. |
| `Scroll.Scene.Render` | pico_scroll_petals.py:182-196 | Clear, the writes, then show. Every pixel written is on the grid and at a level in `[0, max_bright]`. |
| `Scroll.Scene.WalkAll` | pico_scroll_petals.py:199-200 | Every petal takes one walk with its own draws, and all stay on the grid. |
| `Scroll.Scene.ChangePetals` | pico_scroll_petals.py:137-161 | A appends one fresh petal per reading at its drawn cell. Then B drops `min(readings, count)` petals from the front of the longer list, so the count is `max(0, old + added − removed)`. The log is A's announcements followed by B's, each with the count at that moment. |
| `Scroll.Scene.ReadButtons` | pico_scroll_petals.py:137-180 | The four button blocks. The petal list is the same as after `ChangePetals`. X and then Y update the brightness counters. The log is A's and B's announcements, then "MAX" exactly when X is pressed and reaches 255. |
| `Scroll.Scene.Step` | pico_scroll_petals.py:136-200 | One pass of the inner loop: buttons, render, walk. The petal list is the buttons' result, every petal stays on the grid, and the counters are as `ReadButtons` states. |

## Left out

- Hardware. The I²C display, `PicoScroll`, `clue` and the button hardware are replaced by `Sink.Display`, an event log, and by sequences of button readings. `show_text` is an event holding the text; glyph rendering is not modelled.
- Timing. Every `sleep` and the pacing constants are left out. Each `while True` loop is modelled by one iteration: `Flat.Loop.Tick`, `Heart.ChooseRound`, `Scroll.Scene.Step`. Running forever is not modelled.
- Randomness. The distributions of `random.random`, `randint`, `choice` and `randrange` are not modelled. Their results are inputs with range preconditions, so probabilities (such as the 0.9 decay skip at lib/layeredpetalbit.py:188) are not stated.
- IEEE floats. Positions, weights and chances are exact reals. Rounding effects such as `x % w` returning `w`, and the sign of `math.modf`'s fractional part for `-0.0`, are not modelled.
- `charge` and `wave` (lib/heartbit.py:8-63). They push fixed bitmaps and a sweep table to the hardware in endless loops.
- The pattern literals of `choose_brightness` (lib/heartbit.py:91-176) and its start-up `display.fill(brightness)` (line 220). The patterns are parameters of `Heart.ChooseRound`.
- Module-level side effects: the display built at lib/heartbit.py:6, the call at lib/heartbit.py:233, and the ten random initial petals at pico_scroll_petals.py:115-133. `Scroll.Scene.constructor` takes the initial petals as given.
- The debug `print` and re-`raise` at pico_scroll_petals.py:192-194. `Scroll.RenderLogLevels` shows the error cannot arise for positions on the grid.
- The commented-out edge reassignment at lib/petalbit.py:236-237.
- `LayeredPetalDisplay.apply_effect` (lib/layeredpetalbit.py:245-249). It takes an arbitrary callback and nothing calls it.
- `Heart.IsSpace` is CircuitPython's whitespace set for `str.split()`: space and `\t` through `\r`. The board code imports `adafruit_clue`, so it targets CircuitPython. CPython also splits at `\x1c` through `\x1f` and at non-ASCII whitespace, which the model does not.
- `Petal.walk`'s return value and `Petal.drop`'s are returned but never read by the script.
- The `frame=` argument that `Petal.draw` and `Layer.draw` pass on to `display.pixel` (lib/layeredpetalbit.py:26, 30 and 180-183). A `Pixel` event carries no frame, so the log does not record which frame a write goes to. In `main` that argument is always the frame just selected with `display.frame(frame, show=False)` (lib/layeredpetalbit.py:332-335), so nothing observable is lost there.
- The second positional argument of `transition`'s `display.fill(old_brightness, frame)` (lib/heartbit.py:188). `Heart.DrawTransitionFrame` logs `Fill(old_brightness)` only. The display driver is not part of this model, so what that argument means to `fill` (a frame or some other parameter) is not stated.
- Layers.Layer.constructor: requires the asserted `0 ≤ min ≤ max ≤ 255` (lib/layeredpetalbit.py:150-157) instead of modelling the AssertionError.
- Layered.LayeredPetalDisplay.constructor: requires the bracket computation to succeed. The exceptions themselves are modelled by `Layered.Brackets`.
- Layered.LayeredPetalDisplay.CreateLayers: requires a positive bracket step and bands within `[0, 255]`, the conditions under which no Layer assert fails. A negative step (`brightness_max < brightness_min`) and a band reaching above 255 are not modelled as errors.
- Layered.LayeredPetalDisplay.Draw: requires at least one layer. With none, the unpacking at lib/layeredpetalbit.py:276 raises ValueError, which is not modelled.
- Gusts.Wind.Blow: requires (through `Admits`) that a new gust's duration draw lies in `[0, gust_duration_max]` and its strength draw in `[-gust_strength_max, gust_strength_max]`. With `gust_duration_max < 0` or `gust_strength_max < 0` no draw qualifies, so `Blow`, `Layers.Layer.Gust` and `Flat.PetalDisplay.Gust` cannot be called when a gust starts. The source then raises, ValueError from `randint` or IndexError from `choice([])` (lib/layeredpetalbit.py:113-117), and that exception is not modelled.
- Layers.Layer.GenerateBlooms: requires (through `AdmitsBlooms`) at most `petals_per_bloom_max` spawns when `more_blooms` holds. With `petals_per_bloom_max < 0` no input qualifies once a bloom is due, and the source raises ValueError from `randint(0, petals_per_bloom_max)` (lib/layeredpetalbit.py:206, lib/petalbit.py:230), which is not modelled. Neither constructor checks the setting. The same holds for `Layers.Layer.Frame`, `Layered.LayeredPetalDisplay.NewLayer`, `AddLayer`, `BuildLayers`, `CreateLayers` (through `SeedAdmits`) and `Draw` (through each layer's `AdmitsBlooms`), and for `Flat.Loop.Tick` (through `TickAdmits`).
- Flat.Loop.constructor: requires the first bloom's draws to fit. With an empty band `randint` would raise; that is characterised by `Flat.SpawnFitsNeedsBand`.
- Heart.ButtonHeld: requires the button to be released at some reading. A button held forever keeps the loop running, which is not modelled. The same holds for `Heart.ChooseRound`, `Scroll.Scene.HoldA`, `Scroll.Scene.HoldB` and the methods calling them.
- Scroll.Petal.constructor: requires positive grid sizes and a positive `steps_per_interval`. A zero value raises ZeroDivisionError at pico_scroll_petals.py:36 or in `%`, which is not modelled.
- Scroll.Scene.Step: states the petal list, the brightness counters and that every petal stays on the grid. It does not restate the display log of the pass, which `Scroll.Scene.ReadButtons` and `Scroll.Scene.Render` give. It does not restate the petals' new states, which `Scroll.Scene.WalkAll` gives.
