# HoloPlay Unreal plugin 1.4.0 (UE5.0): viewport client, tiling settings and editor commands

This project models the sequential logic of the Looking Glass HoloPlay plugin for
Unreal Engine 5.0 and proves properties of it. The GPU and engine plumbing is
not modelled; there are four parts.

- **The HoloPlay viewport client** (`FHoloPlayViewportClient`), in `viewport.dfy`.
  - It holds three independent single-slot screenshot mailboxes: lenticular, quilt and 2D.
  - `PreparePlay*` fills an empty slot and refuses a busy one.
  - `Process*` drains a slot, with the source's rules on when a notification fires, when a capture is saved and when a 2D request stays pending.
  - Filename resolution (`RequestScreenshot`, `CreateViewportScreenShotFilename`) is in `paths.dfy`.
  - `Draw` is modelled as a method that returns a trace of the frame's stages: clears, the quilt target, the 2D render, the 2D screenshot pass, view rendering, copies with their global and local view indices, the flush, the quilt screenshot and the lenticular pass. A pure function of the capture component's shape specifies that trace.
  - The client also keeps the lazily created quilt render target (`GetQuiltRT`), the ignore-input flag and the mouse cursor.
  - The console commands (`Exec` and the `Handle*Command` routines) are methods of the client. They are specified by pure routing functions in `console.dfy`. `ParseResolution` and `ParseScreenshotCommand` are there too.
  - `ClipScreenshot` (the in-place row compaction of a captured bitmap) and the alpha-forcing loops are in `clip.dfy`, over an `array` of pixels.
- **Tiling settings** (`FHoloPlayTilingQuality` and the presets of `UHoloPlaySettings`), in `tiling.dfy`.
  - Tile sizes use C++ truncating division.
  - The tile count, the geometry-only `operator==` and the preset table are modelled.
- **The plugin settings object** (`UHoloPlaySettings`), in `settings.dfy`.
  - It is a class with the fields the core reads and writes.
  - `HoloPlaySave` is counted, not performed.
  - The `FHoloPlayScreenshotSettings` constructor and its resolution-visibility rule are modelled.
- **The editor toolbar commands** (`FHoloPlayToolbarCommand`), in `editor.dfy`.
  - The flag toggles, the play-mode and placement setters and their "is checked" predicates are modelled.
  - So are the `CanExecute*` guards and `GetLastPlaySessionCommand`.
  - `RepeatLastPlay_Clicked`, and the command list that runs an action only when its guard allows it, are included.
  - Whether the game is playing and whether a game viewport exists are inputs. Calls into the HoloPlay runtime (start and stop the player, open the settings viewer) are returned as a list of calls.

`strings.dfy` models the Unreal string routines the core depends on, on ASCII `seq<char>`:

- trimming and lower-casing;
- `FString::IsNumeric`;
- `FCString::Atoi`, taken as a digit prefix;
- `FParse::Command`;
- `FParse::Param`, whose tokens are broken at any whitespace;
- `ParseIntoArray` on a space.

`paths.dfy` models the `FPaths` helpers used by the filename code. These engine routines are outside the repository, so they are models of their documented behaviour, not copies of code. `wrappers.dfy` holds `Option`.

Names resolved through the file system (`FFileHelper::GenerateNextBitmapFilename`) and the game's screenshot directory are parameters. The engine's answers are boolean inputs: whether a capture succeeded, whether a capture component is valid, whether the game is playing.

## Model

| member | source | states |
|---|---|---|
| Viewport.ViewportClient.constructor | ULLG/Plugins/HoloPlayUnrealPlugin-1.4.0-UE5.0/Source/HoloPlayRuntime/Private/Render/HoloPlayViewportClient.h:554-556 | all three request slots start empty, input is not ignored, the cursor is the default, there is no quilt target and no notice, restart or tiling update has been issued |
| Viewport.ViewportClient.PreparePlayLenticularScreenshot | ULLG/Plugins/HoloPlayUnrealPlugin-1.4.0-UE5.0/Source/HoloPlayRuntime/Private/Render/HoloPlayViewportClient.cpp:936-947 | succeeds exactly when the lenticular slot was empty, and then stores a fresh request with the resolved filename and the UI flag; when busy it returns false and the pending request, its filename and its UI flag are unchanged |
| Viewport.ViewportClient.PreparePlayScreenshotQuilt | ULLG/Plugins/HoloPlayUnrealPlugin-1.4.0-UE5.0/Source/HoloPlayRuntime/Private/Render/HoloPlayViewportClient.cpp:949-960 | succeeds exactly when the quilt slot was empty and then stores a fresh request with the resolved filename; when busy the pending request and its filename are unchanged |
| Viewport.ViewportClient.PreparePlayScreenshot2D | ULLG/Plugins/HoloPlayUnrealPlugin-1.4.0-UE5.0/Source/HoloPlayRuntime/Private/Render/HoloPlayViewportClient.cpp:962-973 | succeeds exactly when the 2D slot was empty and then stores a fresh request with the resolved filename; when busy the pending request and its filename are unchanged |
| Viewport.QuiltOutcome | ULLG/Plugins/HoloPlayUnrealPlugin-1.4.0-UE5.0/Source/HoloPlayRuntime/Private/Render/HoloPlayViewportClient.cpp:427-469 | a quilt request never stays pending; it notifies exactly when its filename is non-empty, whether or not the capture succeeded; it saves only when there is a name and the capture succeeded, under the png save name |
| Viewport.Screenshot2DOutcome | ULLG/Plugins/HoloPlayUnrealPlugin-1.4.0-UE5.0/Source/HoloPlayRuntime/Private/Render/HoloPlayViewportClient.cpp:542-587 | a named 2D request stays pending exactly when the configured resolution has X or Y at most 0; otherwise a named request notifies once; it saves exactly when it notified and the capture succeeded, under the png save name |
| Viewport.DefaultResolutionNeverHolds | ULLG/Plugins/HoloPlayUnrealPlugin-1.4.0-UE5.0/Source/HoloPlayRuntime/Private/Render/HoloPlayViewportClient.cpp:554-560 | with the default 2D resolution (1280 by 720) a 2D request is never kept pending |
| Viewport.LenticularOutcome | ULLG/Plugins/HoloPlayUnrealPlugin-1.4.0-UE5.0/Source/HoloPlayRuntime/Private/Render/HoloPlayViewportClient.cpp:471-540 | the lenticular result is true exactly when the filename is non-empty, and it notifies exactly then; the Slate path is taken exactly when the UI is to be shown, the window is valid and Slate is initialised; it saves exactly when the capture on the chosen path succeeded |
| Viewport.UnsuffixedQuiltNotifies | ULLG/Plugins/HoloPlayUnrealPlugin-1.4.0-UE5.0/Source/HoloPlayRuntime/Private/Render/HoloPlayViewportClient.cpp:29-48 | a quilt request made without the numbered suffix always notifies, because its resolved name is never empty |
| Viewport.ViewportClient.ProcessScreenshotQuilts | ULLG/Plugins/HoloPlayUnrealPlugin-1.4.0-UE5.0/Source/HoloPlayRuntime/Private/Render/HoloPlayViewportClient.cpp:427-469 | the quilt slot is empty afterwards; with no request nothing is saved or notified; with one the saved name and the notice count follow the quilt outcome |
| Viewport.ViewportClient.ProcessScreenShotLenticular | ULLG/Plugins/HoloPlayUnrealPlugin-1.4.0-UE5.0/Source/HoloPlayRuntime/Private/Render/HoloPlayViewportClient.cpp:471-540 | the lenticular slot is empty afterwards; with no request it returns false and notifies nothing; with one, result, path, saved name and notice count follow the lenticular outcome |
| Viewport.ViewportClient.ProcessScreenShots | ULLG/Plugins/HoloPlayUnrealPlugin-1.4.0-UE5.0/Source/HoloPlayRuntime/Private/Render/HoloPlayViewportClient.h:229-232 | returns true exactly when a lenticular request with a non-empty filename was pending, empties the slot and notifies exactly when it returns true |
| Viewport.ViewportClient.ProcessScreenshot2D | ULLG/Plugins/HoloPlayUnrealPlugin-1.4.0-UE5.0/Source/HoloPlayRuntime/Private/Render/HoloPlayViewportClient.cpp:542-587 | with no request nothing changes; with one, the slot is kept exactly when the request is pending, the 2D view is rendered at the configured resolution exactly when it notifies, and the saved name and notice count follow the 2D outcome |
| Viewport.ViewportClient.GetQuiltRT | ULLG/Plugins/HoloPlayUnrealPlugin-1.4.0-UE5.0/Source/HoloPlayRuntime/Private/Render/HoloPlayViewportClient.cpp:988-1011 | afterwards the quilt target has exactly the tiling's quilt size; it was created exactly when there was none, and resized exactly when one of a different size existed |
| Viewport.ViewportClient.Draw | ULLG/Plugins/HoloPlayUnrealPlugin-1.4.0-UE5.0/Source/HoloPlayRuntime/Private/Render/HoloPlayViewportClient.cpp:100-222 | the frame's trace is exactly the one the capture component's shape dictates; the quilt target is ensured whenever a component exists; the 2D slot, its notices, the 2D render and the 2D file name follow the 2D outcome when the frame reaches the 2D screenshot step with a pending request, and are unchanged or absent otherwise; when the frame reaches the quilt screenshot the quilt slot is emptied, and its notices and saved file name follow the quilt outcome for a pending request and are unchanged or absent for an empty slot; on a frame that does not reach it, nothing of the quilt slot changes and no quilt file is saved |
| Viewport.ViewportClient.RunPasses | ULLG/Plugins/HoloPlayUnrealPlugin-1.4.0-UE5.0/Source/HoloPlayRuntime/Private/Render/HoloPlayViewportClient.cpp:151-222 | the non-2D part of a frame: the 2D screenshot pass, then the view pass, then the final passes; the 2D slot, its notices, the render and the saved name follow the 2D outcome, and nothing happens for an empty slot; the quilt slot, its notices and the saved quilt name change only when the final passes run, and then follow the quilt outcome, with notices unchanged and nothing saved for an empty slot |
| Viewport.ViewportClient.CopyViews | ULLG/Plugins/HoloPlayUnrealPlugin-1.4.0-UE5.0/Source/HoloPlayRuntime/Private/Render/HoloPlayViewportClient.cpp:156-199 | the copy loop yields exactly the specified copy stages, and reports a missing target exactly when a rendering config lacks one |
| Viewport.DrawWithoutComponent | ULLG/Plugins/HoloPlayUnrealPlugin-1.4.0-UE5.0/Source/HoloPlayRuntime/Private/Render/HoloPlayViewportClient.cpp:110-117 | without a capture component the frame clears to black and then blue, and does nothing else |
| Viewport.DrawWithoutConfigs | ULLG/Plugins/HoloPlayUnrealPlugin-1.4.0-UE5.0/Source/HoloPlayRuntime/Private/Render/HoloPlayViewportClient.cpp:119-127 | with no rendering configs the frame stops with a green clear, but only after the quilt target has been ensured |
| Viewport.Draw2D | ULLG/Plugins/HoloPlayUnrealPlugin-1.4.0-UE5.0/Source/HoloPlayRuntime/Private/Render/HoloPlayViewportClient.cpp:129-149 | in 2D mode the frame renders the 2D view once and then has no copy, flush, quilt screenshot, view rendering or 2D screenshot pass |
| Viewport.DrawMissingTarget | ULLG/Plugins/HoloPlayUnrealPlugin-1.4.0-UE5.0/Source/HoloPlayRuntime/Private/Render/HoloPlayViewportClient.cpp:160-170 | a config whose render target is missing aborts the frame before the flush, the quilt screenshot and the lenticular pass |
| Viewport.DrawGlobalIndices | ULLG/Plugins/HoloPlayUnrealPlugin-1.4.0-UE5.0/Source/HoloPlayRuntime/Private/Render/HoloPlayViewportClient.cpp:156-199 | with no override and no missing target the copies carry the global view indices 0 to N-1, consecutively across configs in order |
| Viewport.CopyStagesIndices | ULLG/Plugins/HoloPlayUnrealPlugin-1.4.0-UE5.0/Source/HoloPlayRuntime/Private/Render/HoloPlayViewportClient.cpp:161-196 | over any configs that all have targets, the copies' global indices are the consecutive range from the starting index, of length the total view count |
| Viewport.DrawOverrideSkipsCopies | ULLG/Plugins/HoloPlayUnrealPlugin-1.4.0-UE5.0/Source/HoloPlayRuntime/Private/Render/HoloPlayViewportClient.cpp:151-222 | with a quilt override the frame has no view rendering and no copies: quilt target, 2D screenshot pass, flush, quilt screenshot, lenticular pass |
| Viewport.DrawQuiltShotOrder | ULLG/Plugins/HoloPlayUnrealPlugin-1.4.0-UE5.0/Source/HoloPlayRuntime/Private/Render/HoloPlayViewportClient.cpp:199-222 | in every frame that reaches the quilt screenshot, the trace ends with flush, quilt screenshot, lenticular pass, and neither the flush nor the quilt screenshot occurs earlier |
| Viewport.QuiltShotReached | ULLG/Plugins/HoloPlayUnrealPlugin-1.4.0-UE5.0/Source/HoloPlayRuntime/Private/Render/HoloPlayViewportClient.cpp:100-222 | the quilt screenshot and the 2D screenshot pass occur in a frame exactly when the frame reaches them |
| Viewport.ClientSizePoint | ULLG/Plugins/HoloPlayUnrealPlugin-1.4.0-UE5.0/Source/HoloPlayRuntime/Private/Render/HoloPlayViewportClient.cpp:700-703 | the unsigned width and height become 32-bit signed coordinates congruent to them modulo 2^32, unchanged below 2^31 |
| Viewport.CaptureComponent | ULLG/Plugins/HoloPlayUnrealPlugin-1.4.0-UE5.0/Source/HoloPlayRuntime/Private/Render/HoloPlayViewportClient.cpp:975-986 | the editor's capture component is chosen when the editor is asked for and has one; otherwise the game's first component, or none when there is none |
| Viewport.ViewportClient.Exec | ULLG/Plugins/HoloPlayUnrealPlugin-1.4.0-UE5.0/Source/HoloPlayRuntime/Private/Render/HoloPlayViewportClient.cpp:609-647 | an unrouted command is not handled and changes nothing; each routed command does exactly what its handler's contract states; the scene command is handled and changes nothing |
| Viewport.ViewportClient.HandleLenticularScreenshotCommand | ULLG/Plugins/HoloPlayUnrealPlugin-1.4.0-UE5.0/Source/HoloPlayRuntime/Private/Render/HoloPlayViewportClient.cpp:649-660 | without a viewport the command is handled and changes nothing; with one, it prepares a lenticular request without the UI from the parsed name and suffix flag, and reports whether that succeeded |
| Viewport.ViewportClient.HandleScreenshotQuiltCommand | ULLG/Plugins/HoloPlayUnrealPlugin-1.4.0-UE5.0/Source/HoloPlayRuntime/Private/Render/HoloPlayViewportClient.cpp:662-673 | without a viewport the command is handled and changes nothing; with one, it prepares a quilt request from the parsed name and suffix flag, and reports whether that succeeded |
| Viewport.ViewportClient.HandleScreenshot2DCommand | ULLG/Plugins/HoloPlayUnrealPlugin-1.4.0-UE5.0/Source/HoloPlayRuntime/Private/Render/HoloPlayViewportClient.cpp:675-686 | without a viewport the command is handled and changes nothing; with one, it prepares a 2D request from the parsed name and suffix flag, and reports whether that succeeded |
| Viewport.ViewportClient.HandleWindowCommand | ULLG/Plugins/HoloPlayUnrealPlugin-1.4.0-UE5.0/Source/HoloPlayRuntime/Private/Render/HoloPlayViewportClient.cpp:688-728 | a ClientSize command restarts the player in the last play mode and writes the client size only when both parsed values are positive; a numeric PlacementMode writes the placement; the settings are saved exactly when the command was handled |
| Viewport.ViewportClient.HandleShaderCommand | ULLG/Plugins/HoloPlayUnrealPlugin-1.4.0-UE5.0/Source/HoloPlayRuntime/Private/Render/HoloPlayViewportClient.cpp:730-793 | QuiltMode and CustomAspect write whether the Atoi of their argument, numeric or not, is non-zero; the other settings are accepted without a modelled effect; the command is handled and saved exactly when one of its eight setting words matched |
| Viewport.ViewportClient.HandleTillingCommand | ULLG/Plugins/HoloPlayUnrealPlugin-1.4.0-UE5.0/Source/HoloPlayRuntime/Private/Render/HoloPlayViewportClient.cpp:800-846 | with no valid capture component, or no known preset word, it returns false and changes nothing; otherwise it applies the preset and saves once |
| Viewport.ViewportClient.HandleRenderingCommand | ULLG/Plugins/HoloPlayUnrealPlugin-1.4.0-UE5.0/Source/HoloPlayRuntime/Private/Render/HoloPlayViewportClient.cpp:848-874 | a Render2D command is handled and saved, and writes the flag as the parsed number being non-zero only when the argument is numeric; any other command is not handled and changes nothing |
| Viewport.ViewportClient.SetIgnoreInput | ULLG/Plugins/HoloPlayUnrealPlugin-1.4.0-UE5.0/Source/HoloPlayRuntime/Private/Render/HoloPlayViewportClient.h:340-356 | after setting it the flag reads back as the value set, and nothing else changes |
| Viewport.ViewportClient.LostFocus | ULLG/Plugins/HoloPlayUnrealPlugin-1.4.0-UE5.0/Source/HoloPlayRuntime/Private/Render/HoloPlayViewportClient.cpp:599-602 | after losing focus the cursor is the default cursor |
| Viewport.ViewportClient.ReceivedFocus | ULLG/Plugins/HoloPlayUnrealPlugin-1.4.0-UE5.0/Source/HoloPlayRuntime/Private/Render/HoloPlayViewportClient.cpp:604-607 | after receiving focus the cursor is hidden |
| Viewport.ScreenshotRequest.RequestScreenshot | ULLG/Plugins/HoloPlayUnrealPlugin-1.4.0-UE5.0/Source/HoloPlayRuntime/Private/Render/HoloPlayViewportClient.cpp:29-48 | the stored filename is exactly the resolved name for the given name and suffix flag, which is what the filename getter returns |
| Viewport.ScreenshotRequest.RequestDefault | ULLG/Plugins/HoloPlayUnrealPlugin-1.4.0-UE5.0/Source/HoloPlayRuntime/Private/Render/HoloPlayViewportClient.cpp:23-27 | the stored filename is the resolved name for an empty name with the suffix |
| Viewport.LenticularScreenshotRequest.constructor | ULLG/Plugins/HoloPlayUnrealPlugin-1.4.0-UE5.0/Source/HoloPlayRuntime/Private/Render/HoloPlayViewportClient.h:92-129 | a new lenticular request has no filename and does not show the UI |
| Viewport.LenticularScreenshotRequest.RequestScreenshot | ULLG/Plugins/HoloPlayUnrealPlugin-1.4.0-UE5.0/Source/HoloPlayRuntime/Private/Render/HoloPlayViewportClient.cpp:77-86 | the stored filename is the resolved one, and the UI flag is overwritten only when that filename is non-empty |
| Viewport.LenticularScreenshotRequest.RequestDefault | ULLG/Plugins/HoloPlayUnrealPlugin-1.4.0-UE5.0/Source/HoloPlayRuntime/Private/Render/HoloPlayViewportClient.cpp:71-75 | the default lenticular request stores the resolved default name and updates the UI flag only when that name is non-empty |
| Viewport.ShowUIStoredWithoutSuffix | ULLG/Plugins/HoloPlayUnrealPlugin-1.4.0-UE5.0/Source/HoloPlayRuntime/Private/Render/HoloPlayViewportClient.cpp:77-86 | without the numbered suffix the resolved name is never empty, so the UI flag is always stored |
| Paths.TypeName | ULLG/Plugins/HoloPlayUnrealPlugin-1.4.0-UE5.0/Source/HoloPlayRuntime/Private/Render/HoloPlayViewportClient.cpp:50-63 | the type name is never empty, and is the given name whenever that is non-empty |
| Paths.ViewportScreenShotFilename | ULLG/Plugins/HoloPlayUnrealPlugin-1.4.0-UE5.0/Source/HoloPlayRuntime/Private/Render/HoloPlayViewportClient.cpp:50-63 | a name containing '/' is kept; any other goes into the screenshot directory; the result is never empty |
| Paths.ResolvedWithoutSuffix | ULLG/Plugins/HoloPlayUnrealPlugin-1.4.0-UE5.0/Source/HoloPlayRuntime/Private/Render/HoloPlayViewportClient.cpp:40-47 | without the suffix the stored name is never empty and always has an extension, png when the name had none |
| Paths.ResolvedWithSuffix | ULLG/Plugins/HoloPlayUnrealPlugin-1.4.0-UE5.0/Source/HoloPlayRuntime/Private/Render/HoloPlayViewportClient.cpp:34-39 | with the suffix the stored name is what the numbering routine makes of the base name |
| Paths.DefaultResolvedName | ULLG/Plugins/HoloPlayUnrealPlugin-1.4.0-UE5.0/Source/HoloPlayRuntime/Private/Render/HoloPlayViewportClient.cpp:23-63 | an empty name without the suffix becomes directory/Screenshot.png |
| Paths.AppendedExtension | ULLG/Plugins/HoloPlayUnrealPlugin-1.4.0-UE5.0/Source/HoloPlayRuntime/Private/Render/HoloPlayViewportClient.cpp:43-46 | appending a dot and an extension makes that the extension and keeps the rest as the base name |
| Paths.SaveNameIsPng | ULLG/Plugins/HoloPlayUnrealPlugin-1.4.0-UE5.0/Source/HoloPlayRuntime/Private/Render/HoloPlayViewportClient.cpp:454-458 | a name with an extension is saved with the extension png |
| Paths.SaveNameKeepsPng | ULLG/Plugins/HoloPlayUnrealPlugin-1.4.0-UE5.0/Source/HoloPlayRuntime/Private/Render/HoloPlayViewportClient.cpp:454-458 | a name that already ends in .png is saved under exactly that name |
| Paths.LeafStart | ULLG/Plugins/HoloPlayUnrealPlugin-1.4.0-UE5.0/Source/HoloPlayRuntime/Private/Render/HoloPlayViewportClient.cpp:454-458 | the leaf begins just past the last path separator, and no separator follows it |
| Paths.LastDot | ULLG/Plugins/HoloPlayUnrealPlugin-1.4.0-UE5.0/Source/HoloPlayRuntime/Private/Render/HoloPlayViewportClient.cpp:43-46 | the position found is a dot and no dot follows it; with no result there is no dot at all |
| Paths.PathAppend | ULLG/Plugins/HoloPlayUnrealPlugin-1.4.0-UE5.0/Source/HoloPlayRuntime/Private/Render/HoloPlayViewportClient.cpp:59-62 | joining puts exactly one separator between directory and name, unless the directory already ends in one |
| Console.ParseResolution | ULLG/Plugins/HoloPlayUnrealPlugin-1.4.0-UE5.0/Source/HoloPlayRuntime/Private/Render/HoloPlayViewportClient.cpp:896-934 | succeeds exactly when the specified resolution of the text exists and then writes it; on failure the outputs keep their old values |
| Console.ResolutionRoundTrip | ULLG/Plugins/HoloPlayUnrealPlugin-1.4.0-UE5.0/Source/HoloPlayRuntime/Private/Render/HoloPlayViewportClient.cpp:896-934 | a written W x H (either case of x) parses back to exactly W and H |
| Console.ResolutionOfDigits | ULLG/Plugins/HoloPlayUnrealPlugin-1.4.0-UE5.0/Source/HoloPlayRuntime/Private/Render/HoloPlayViewportClient.cpp:912-929 | two digit runs around the separator give X as the Atoi of the whole lower-cased text and Y as the Atoi of the part after the x |
| Console.ResolutionNeedsSeparator | ULLG/Plugins/HoloPlayUnrealPlugin-1.4.0-UE5.0/Source/HoloPlayRuntime/Private/Render/HoloPlayViewportClient.cpp:912-921 | a text with no x in either case never parses |
| Console.ResolutionOfPieces | ULLG/Plugins/HoloPlayUnrealPlugin-1.4.0-UE5.0/Source/HoloPlayRuntime/Private/Render/HoloPlayViewportClient.cpp:899-929 | for a trimmed text whose lower-case form has its first x before a trimmed numeric remainder, the result is the clamped Atoi of the whole and of the remainder |
| Console.WrittenResolutionNumbers | ULLG/Plugins/HoloPlayUnrealPlugin-1.4.0-UE5.0/Source/HoloPlayRuntime/Private/Render/HoloPlayViewportClient.cpp:925-926 | Atoi of a written W x H is W, and Atoi of the written H is H |
| Console.FirstIndexOf | ULLG/Plugins/HoloPlayUnrealPlugin-1.4.0-UE5.0/Source/HoloPlayRuntime/Private/Render/HoloPlayViewportClient.cpp:912-914 | the found index is the first occurrence of the character; with no result it does not occur |
| Console.WindowCommand | ULLG/Plugins/HoloPlayUnrealPlugin-1.4.0-UE5.0/Source/HoloPlayRuntime/Private/Render/HoloPlayViewportClient.cpp:688-728 | a written client size is always positive and always comes with a restart; the command is handled exactly when it restarts or places |
| Console.WindowClientSize | ULLG/Plugins/HoloPlayUnrealPlugin-1.4.0-UE5.0/Source/HoloPlayRuntime/Private/Render/HoloPlayViewportClient.cpp:694-709 | ClientSize W x H with both positive writes exactly that size, restarts and is handled |
| Console.WindowClientSizeUnparsed | ULLG/Plugins/HoloPlayUnrealPlugin-1.4.0-UE5.0/Source/HoloPlayRuntime/Private/Render/HoloPlayViewportClient.cpp:694-709 | a ClientSize with an unparsable argument still restarts and is handled but writes no size |
| Console.WindowPlacement | ULLG/Plugins/HoloPlayUnrealPlugin-1.4.0-UE5.0/Source/HoloPlayRuntime/Private/Render/HoloPlayViewportClient.cpp:710-718 | PlacementMode N writes the placement N (as a byte) and is handled, with no restart |
| Console.ScreenshotCommandArgs | ULLG/Plugins/HoloPlayUnrealPlugin-1.4.0-UE5.0/Source/HoloPlayRuntime/Private/Render/HoloPlayViewportClient.cpp:876-894 | the suffix survives exactly when it was wanted and no nosuffix flag is present; with several words the name is a single non-empty word without spaces; with one word or none the name is the whole text |
| Console.ScreenshotNameIsFirstWord | ULLG/Plugins/HoloPlayUnrealPlugin-1.4.0-UE5.0/Source/HoloPlayRuntime/Private/Render/HoloPlayViewportClient.cpp:879-883 | whatever spaces lead, when more words follow the name is exactly the first run of non-spaces |
| Console.TabbedNoSuffix | ULLG/Plugins/HoloPlayUnrealPlugin-1.4.0-UE5.0/Source/HoloPlayRuntime/Private/Render/HoloPlayViewportClient.cpp:876-894 | a tab does not separate the name, yet it does separate the flag: "name<tab>-nosuffix" is taken whole as the name and the suffix is turned off |
| Console.NamedWithoutSuffix | ULLG/Plugins/HoloPlayUnrealPlugin-1.4.0-UE5.0/Source/HoloPlayRuntime/Private/Render/HoloPlayViewportClient.cpp:876-894 | "name -nosuffix" with a name without spaces yields that name and no suffix |
| Console.SingleWordName | ULLG/Plugins/HoloPlayUnrealPlugin-1.4.0-UE5.0/Source/HoloPlayRuntime/Private/Render/HoloPlayViewportClient.cpp:876-894 | one word without whitespace that is not the flag becomes the name, and the suffix is kept |
| Console.LoneNoSuffixIsName | ULLG/Plugins/HoloPlayUnrealPlugin-1.4.0-UE5.0/Source/HoloPlayRuntime/Private/Render/HoloPlayViewportClient.cpp:876-894 | a lone -nosuffix both turns the suffix off and becomes the file name |
| Console.ExecReachesEveryHandler | ULLG/Plugins/HoloPlayUnrealPlugin-1.4.0-UE5.0/Source/HoloPlayRuntime/Private/Render/HoloPlayViewportClient.cpp:609-647 | each of the eight HoloPlay command words, followed by a non-word character, routes to its own handler, with the blanks after it skipped |
| Console.ExecTableSeparated | ULLG/Plugins/HoloPlayUnrealPlugin-1.4.0-UE5.0/Source/HoloPlayRuntime/Private/Render/HoloPlayViewportClient.cpp:609-647 | no command word earlier in the chain can match a command meant for a later one |
| Console.FirstMatchReaches | ULLG/Plugins/HoloPlayUnrealPlugin-1.4.0-UE5.0/Source/HoloPlayRuntime/Private/Render/HoloPlayViewportClient.cpp:609-647 | in any chain whose words are separated, each word followed by a non-word character is routed to its own entry |
| Console.FirstMatchMeaning | ULLG/Plugins/HoloPlayUnrealPlugin-1.4.0-UE5.0/Source/HoloPlayRuntime/Private/Render/HoloPlayViewportClient.cpp:609-647 | the chain finds nothing exactly when no word matches; otherwise it finds the first matching entry and its argument |
| Console.FirstMatchAt | ULLG/Plugins/HoloPlayUnrealPlugin-1.4.0-UE5.0/Source/HoloPlayRuntime/Private/Render/HoloPlayViewportClient.cpp:609-647 | when entry i matches and none before it does, the chain selects entry i with that argument |
| Console.TilingCommand | ULLG/Plugins/HoloPlayUnrealPlugin-1.4.0-UE5.0/Source/HoloPlayRuntime/Private/Render/HoloPlayViewportClient.cpp:800-846 | a tiling command can never select the Custom preset, and selects nothing exactly when no preset word matches |
| Console.TilingReachesEveryPreset | ULLG/Plugins/HoloPlayUnrealPlugin-1.4.0-UE5.0/Source/HoloPlayRuntime/Private/Render/HoloPlayViewportClient.cpp:810-839 | each of the six preset words selects its own preset, including PortraitHiRes after Portrait |
| Console.TilingTableSeparated | ULLG/Plugins/HoloPlayUnrealPlugin-1.4.0-UE5.0/Source/HoloPlayRuntime/Private/Render/HoloPlayViewportClient.cpp:810-839 | no earlier preset word can match a command meant for a later one |
| Console.ShaderReachesEverySetting | ULLG/Plugins/HoloPlayUnrealPlugin-1.4.0-UE5.0/Source/HoloPlayRuntime/Private/Render/HoloPlayViewportClient.cpp:730-793 | each of the eight shader setting words routes to its own setting, including CustomAspectX and Y after CustomAspect |
| Console.ShaderTableSeparated | ULLG/Plugins/HoloPlayUnrealPlugin-1.4.0-UE5.0/Source/HoloPlayRuntime/Private/Render/HoloPlayViewportClient.cpp:730-793 | no earlier shader word can match a command meant for a later one |
| Console.RenderingCommand | ULLG/Plugins/HoloPlayUnrealPlugin-1.4.0-UE5.0/Source/HoloPlayRuntime/Private/Render/HoloPlayViewportClient.cpp:848-874 | a new Render2D value is produced only for a handled command, and the command is handled exactly when its word is Render2D |
| Console.RenderingCommandValues | ULLG/Plugins/HoloPlayUnrealPlugin-1.4.0-UE5.0/Source/HoloPlayRuntime/Private/Render/HoloPlayViewportClient.cpp:852-864 | Render2D N sets the flag to N being non-zero; Render2D with a non-numeric argument is handled and sets nothing |
| Console.NumberArgument | ULLG/Plugins/HoloPlayUnrealPlugin-1.4.0-UE5.0/Source/HoloPlayRuntime/Private/Render/HoloPlayViewportClient.cpp:712-714 | a written number after a blank is the argument, is numeric, and reads back as itself |
| Console.DigitsAreNumeric | ULLG/Plugins/HoloPlayUnrealPlugin-1.4.0-UE5.0/Source/HoloPlayRuntime/Private/Render/HoloPlayViewportClient.cpp:923 | a non-empty run of digits is numeric |
| Console.ClampIdentity | ULLG/Plugins/HoloPlayUnrealPlugin-1.4.0-UE5.0/Source/HoloPlayRuntime/Private/Render/HoloPlayViewportClient.cpp:925-926 | converting a value that already fits in 32 unsigned bits leaves it unchanged |
| Tiling.TruncDivFits | ULLG/Plugins/HoloPlayUnrealPlugin-1.4.0-UE5.0/Source/HoloPlayRuntime/Public/HoloPlaySettings.h:103-111 | for a non-negative size and a positive tile count the truncated tile size is the largest whose tiles fit |
| Tiling.TilesFit | ULLG/Plugins/HoloPlayUnrealPlugin-1.4.0-UE5.0/Source/HoloPlayRuntime/Public/HoloPlaySettings.h:103-111 | for at least one tile per axis and non-negative quilt size, TileSize times Tiles is at most the quilt size, which is below (TileSize + 1) times Tiles, on both axes |
| Tiling.Geometry.NumTiles | ULLG/Plugins/HoloPlayUnrealPlugin-1.4.0-UE5.0/Source/HoloPlayRuntime/Public/HoloPlaySettings.h:113-116 | the tile count is at least each of the two tile counts when both are positive |
| Tiling.TilingQuality.Default | ULLG/Plugins/HoloPlayUnrealPlugin-1.4.0-UE5.0/Source/HoloPlayRuntime/Public/HoloPlaySettings.h:89 | the default tiling is 4 by 8 on a 2048 quilt with "Default" text, tile sizes left at 0, so it is not consistent |
| Tiling.TilingQuality.constructor | ULLG/Plugins/HoloPlayUnrealPlugin-1.4.0-UE5.0/Source/HoloPlayRuntime/Public/HoloPlaySettings.h:91-101 | the parameterised constructor stores the geometry, text and flags, and always ends consistent because it calls Setup |
| Tiling.TilingQuality.Setup | ULLG/Plugins/HoloPlayUnrealPlugin-1.4.0-UE5.0/Source/HoloPlayRuntime/Public/HoloPlaySettings.h:103-111 | afterwards the tile sizes are the truncated quotients of the quilt size by the tile counts |
| Tiling.ConsistentTilesFit | ULLG/Plugins/HoloPlayUnrealPlugin-1.4.0-UE5.0/Source/HoloPlayRuntime/Public/HoloPlaySettings.h:103-111 | a consistent tiling with usable geometry has its tiles inside the quilt on both axes |
| Tiling.EqualsIsEquivalence | ULLG/Plugins/HoloPlayUnrealPlugin-1.4.0-UE5.0/Source/HoloPlayRuntime/Public/HoloPlaySettings.h:118-121 | tiling equality is reflexive, symmetric and transitive |
| Tiling.EqualsIgnoresNonGeometry | ULLG/Plugins/HoloPlayUnrealPlugin-1.4.0-UE5.0/Source/HoloPlayRuntime/Public/HoloPlaySettings.h:118-121 | two tilings are equal exactly when tile counts and quilt sizes agree, whatever their text, flags and derived sizes |
| Tiling.PresetGeometry | ULLG/Plugins/HoloPlayUnrealPlugin-1.4.0-UE5.0/Source/HoloPlayRuntime/Public/HoloPlaySettings.h:301-319 | every preset has usable geometry |
| Tiling.NewPreset | ULLG/Plugins/HoloPlayUnrealPlugin-1.4.0-UE5.0/Source/HoloPlayRuntime/Public/HoloPlaySettings.h:301-319 | a preset instance has the preset's geometry and label, is consistent, is editable only for Custom, and has no overscan |
| Tiling.AutomaticPreset | ULLG/Plugins/HoloPlayUnrealPlugin-1.4.0-UE5.0/Source/HoloPlayRuntime/Public/HoloPlaySettings.h:301-304 | Automatic gives tiles of 420 by 560 with no remainder, and equals the differently labelled Portrait preset |
| Tiling.FourKAndEightKPresets | ULLG/Plugins/HoloPlayUnrealPlugin-1.4.0-UE5.0/Source/HoloPlayRuntime/Public/HoloPlaySettings.h:310-313 | 4K gives 819 by 455 tiles, using 4095 of 4096 pixels per axis; 8K gives 1638 by 910 |
| HoloPlaySettings.NewScreenshotSettings | ULLG/Plugins/HoloPlayUnrealPlugin-1.4.0-UE5.0/Source/HoloPlayRuntime/Public/HoloPlaySettings.h:219-226 | the screenshot settings keep name, key and resolution, and the resolution is visible exactly when X or Y is non-zero |
| HoloPlaySettings.ScreenshotDefaultsVisibility | ULLG/Plugins/HoloPlayUnrealPlugin-1.4.0-UE5.0/Source/HoloPlayRuntime/Public/HoloPlaySettings.h:292-298 | only the 2D screenshot default, 1280 by 720, shows its resolution |
| HoloPlaySettings.BitsZero | ULLG/Plugins/HoloPlayUnrealPlugin-1.4.0-UE5.0/Source/HoloPlayRuntime/Public/HoloPlaySettings.h:219-226 | the bitwise or of the two resolution values is zero exactly when both are zero |
| HoloPlaySettings.PlacementOfInt | ULLG/Plugins/HoloPlayUnrealPlugin-1.4.0-UE5.0/Source/HoloPlayRuntime/Private/Render/HoloPlayViewportClient.cpp:710-718 | the integer cast to the placement byte is the value itself in 0..255, and is congruent to it modulo 256 in general |
| HoloPlaySettings.Settings.constructor | ULLG/Plugins/HoloPlayUnrealPlugin-1.4.0-UE5.0/Source/HoloPlayRuntime/Public/HoloPlaySettings.h:136-187 | the settings start with automatic placement on screen 0, a 2560 by 1600 client size, separate-window play mode, every flag off and the default 2D screenshot settings |
| HoloPlaySettings.Settings.Save | ULLG/Plugins/HoloPlayUnrealPlugin-1.4.0-UE5.0/Source/HoloPlayRuntime/Public/HoloPlaySettings.h:350-359 | saving is counted once and changes no setting |
| EditorCommands.SetLastExecutedPlayMode | ULLG/Plugins/HoloPlayUnrealPlugin-1.4.0-UE5.0/Source/HoloPlayEditor/Private/HoloPlayEditorCommands.cpp:21-27 | afterwards exactly the recorded mode is checked, and only the play mode and the save count changed |
| EditorCommands.Recorded | ULLG/Plugins/HoloPlayUnrealPlugin-1.4.0-UE5.0/Source/HoloPlayEditor/Private/HoloPlayEditorCommands.cpp:211-216 | after recording a mode exactly that mode is checked, and nothing but the mode and one save changes |
| EditorCommands.GetLastPlaySessionCommand | ULLG/Plugins/HoloPlayUnrealPlugin-1.4.0-UE5.0/Source/HoloPlayEditor/Private/HoloPlayEditorCommands.cpp:29-48 | the command returned is the one that plays in the last recorded mode |
| EditorCommands.CommandModeInverse | ULLG/Plugins/HoloPlayUnrealPlugin-1.4.0-UE5.0/Source/HoloPlayEditor/Private/HoloPlayEditorCommands.cpp:29-48 | a command plays in mode m exactly when it is the last-session command for m |
| EditorCommands.DefaultRepeatsWindow | ULLG/Plugins/HoloPlayUnrealPlugin-1.4.0-UE5.0/Source/HoloPlayEditor/Private/HoloPlayEditorCommands.cpp:29-48 | with the default play mode the repeat command plays in the HoloPlay window |
| EditorCommands.LockDisablesPlayCommands | ULLG/Plugins/HoloPlayUnrealPlugin-1.4.0-UE5.0/Source/HoloPlayEditor/Private/HoloPlayEditorCommands.cpp:293-306 | while locked in the main viewport none of play in main viewport, play in window or close window can execute |
| EditorCommands.OpenAndCloseExclusive | ULLG/Plugins/HoloPlayUnrealPlugin-1.4.0-UE5.0/Source/HoloPlayEditor/Private/HoloPlayEditorCommands.cpp:293-306 | play in window and close window are never both executable; play in main viewport implies play in window; one of those two is executable exactly when not locked |
| EditorCommands.CheckStateMatchesType | ULLG/Plugins/HoloPlayUnrealPlugin-1.4.0-UE5.0/Source/HoloPlayEditor/Private/HoloPlayEditorCommands.cpp:52-63 | a command has a check state exactly when it is not a plain button |
| EditorCommands.OnePlayModeChecked | ULLG/Plugins/HoloPlayUnrealPlugin-1.4.0-UE5.0/Source/HoloPlayEditor/Private/HoloPlayEditorCommands.cpp:211-216 | exactly one of the two play commands is checked, and it is the last-session command |
| EditorCommands.OnePlacementChecked | ULLG/Plugins/HoloPlayUnrealPlugin-1.4.0-UE5.0/Source/HoloPlayEditor/Private/HoloPlayEditorCommands.cpp:257-276 | at most one placement radio button is checked, and one is whenever the placement is a known value |
| EditorCommands.VisibleWhenEnabled | ULLG/Plugins/HoloPlayUnrealPlugin-1.4.0-UE5.0/Source/HoloPlayEditor/Private/HoloPlayEditorCommands.cpp:67-152 | an executable play or close command is visible, and exactly one of the open and close window commands is visible |
| EditorCommands.RepeatLastPlayCanExecute | ULLG/Plugins/HoloPlayUnrealPlugin-1.4.0-UE5.0/Source/HoloPlayEditor/Private/HoloPlayEditorCommands.cpp:174-180 | the repeat guard holds exactly when the last-session command can execute, and only while not playing |
| EditorCommands.Toggled | ULLG/Plugins/HoloPlayUnrealPlugin-1.4.0-UE5.0/Source/HoloPlayEditor/Private/HoloPlayEditorCommands.cpp:218-271 | a toggle flips exactly its own flag, leaves every other flag and setting alone, and saves once |
| EditorCommands.ToggleTwice | ULLG/Plugins/HoloPlayUnrealPlugin-1.4.0-UE5.0/Source/HoloPlayEditor/Private/HoloPlayEditorCommands.cpp:218-271 | toggling a flag twice restores every setting, with two saves counted |
| EditorCommands.TogglesCommute | ULLG/Plugins/HoloPlayUnrealPlugin-1.4.0-UE5.0/Source/HoloPlayEditor/Private/HoloPlayEditorCommands.cpp:218-271 | toggling two flags gives the same settings in either order |
| EditorCommands.Placed | ULLG/Plugins/HoloPlayUnrealPlugin-1.4.0-UE5.0/Source/HoloPlayEditor/Private/HoloPlayEditorCommands.cpp:257-276 | after choosing a placement exactly that placement is checked, and nothing but the placement and one save changes |
| EditorCommands.OnTogglePlayInQuiltMode | ULLG/Plugins/HoloPlayUnrealPlugin-1.4.0-UE5.0/Source/HoloPlayEditor/Private/HoloPlayEditorCommands.cpp:218-224 | the settings become the quilt-mode flag toggled |
| EditorCommands.OnTogglePlayIn2DMode | ULLG/Plugins/HoloPlayUnrealPlugin-1.4.0-UE5.0/Source/HoloPlayEditor/Private/HoloPlayEditorCommands.cpp:231-237 | the settings become the 2D flag toggled |
| EditorCommands.OnToggleLockInMainViewport | ULLG/Plugins/HoloPlayUnrealPlugin-1.4.0-UE5.0/Source/HoloPlayEditor/Private/HoloPlayEditorCommands.cpp:244-250 | the settings become the lock flag toggled |
| EditorCommands.OnToggleCustomAspect | ULLG/Plugins/HoloPlayUnrealPlugin-1.4.0-UE5.0/Source/HoloPlayEditor/Private/HoloPlayEditorCommands.cpp:265-271 | the settings become the custom-aspect flag toggled |
| EditorCommands.OnPlacementInHoloPlay | ULLG/Plugins/HoloPlayUnrealPlugin-1.4.0-UE5.0/Source/HoloPlayEditor/Private/HoloPlayEditorCommands.cpp:257-263 | the settings become the chosen placement, and exactly that placement is checked |
| EditorCommands.SetCurrentHoloPlayDisplayIndex | ULLG/Plugins/HoloPlayUnrealPlugin-1.4.0-UE5.0/Source/HoloPlayEditor/Private/HoloPlayEditorCommands.cpp:308-322 | afterwards the display index reads back as the value set, and only it and the save count changed |
| EditorCommands.PlayInHoloPlayWindowClicked | ULLG/Plugins/HoloPlayUnrealPlugin-1.4.0-UE5.0/Source/HoloPlayEditor/Private/HoloPlayEditorCommands.cpp:182-187 | the separate-window mode is recorded, then the player is started in that mode |
| EditorCommands.PlayInMainViewportClicked | ULLG/Plugins/HoloPlayUnrealPlugin-1.4.0-UE5.0/Source/HoloPlayEditor/Private/HoloPlayEditorCommands.cpp:204-209 | the main-viewport mode is recorded, then the player is started in that mode |
| EditorCommands.PlayRecordsItsMode | ULLG/Plugins/HoloPlayUnrealPlugin-1.4.0-UE5.0/Source/HoloPlayEditor/Private/HoloPlayEditorCommands.cpp:182-209 | each play command starts the player once, in the mode it records, and afterwards it is the checked last-session command |
| EditorCommands.RepeatStopsWhilePlaying | ULLG/Plugins/HoloPlayUnrealPlugin-1.4.0-UE5.0/Source/HoloPlayEditor/Private/HoloPlayEditorCommands.cpp:155-172 | repeat while playing stops the player and changes no setting |
| EditorCommands.RepeatReplaysLastMode | ULLG/Plugins/HoloPlayUnrealPlugin-1.4.0-UE5.0/Source/HoloPlayEditor/Private/HoloPlayEditorCommands.cpp:155-172 | repeat while not playing replays the last mode when that command may execute, and otherwise does nothing |
| EditorCommands.StartOnlyFromPlay | ULLG/Plugins/HoloPlayUnrealPlugin-1.4.0-UE5.0/Source/HoloPlayEditor/Private/HoloPlayEditorCommands.cpp:155-209 | a command makes at most one runtime call, and only the play and repeat commands start the player |
| EditorCommands.RepeatLastPlayClicked | ULLG/Plugins/HoloPlayUnrealPlugin-1.4.0-UE5.0/Source/HoloPlayEditor/Private/HoloPlayEditorCommands.cpp:155-172 | the new settings and the runtime calls are exactly those of the specified repeat command |
| EditorCommands.ExecuteAction | ULLG/Plugins/HoloPlayUnrealPlugin-1.4.0-UE5.0/Source/HoloPlayEditor/Private/HoloPlayEditorCommands.cpp:65-152 | a command runs exactly when its guard holds, and then its effect and calls are the specified ones; otherwise nothing changes and no call is made |
| Clip.ClipScreenshot | ULLG/Plugins/HoloPlayUnrealPlugin-1.4.0-UE5.0/Source/HoloPlayRuntime/Private/Render/HoloPlayViewportClient.cpp:404-425 | an empty rectangle leaves size and pixels alone; otherwise the size becomes the rectangle's and new pixel (r, c) is old pixel (r + top, c + left), with the bitmap shortened to width times height |
| Clip.CopyRows | ULLG/Plugins/HoloPlayUnrealPlugin-1.4.0-UE5.0/Source/HoloPlayRuntime/Private/Render/HoloPlayViewportClient.cpp:417-420 | the row loop leaves the clipped rows, in order, at the front of the buffer |
| Clip.ClippedAt | ULLG/Plugins/HoloPlayUnrealPlugin-1.4.0-UE5.0/Source/HoloPlayRuntime/Private/Render/HoloPlayViewportClient.cpp:417-420 | each pixel of the clipped image is the old pixel at its row and column offset by the rectangle's corner |
| Clip.ClippedLength | ULLG/Plugins/HoloPlayUnrealPlugin-1.4.0-UE5.0/Source/HoloPlayRuntime/Private/Render/HoloPlayViewportClient.cpp:422-423 | the clipped image has exactly width times height pixels |
| Clip.ClipStep | ULLG/Plugins/HoloPlayUnrealPlugin-1.4.0-UE5.0/Source/HoloPlayRuntime/Private/Render/HoloPlayViewportClient.cpp:417-420 | one row move keeps the buffer equal to the rows copied so far followed by the untouched rest |
| Clip.Memmove | ULLG/Plugins/HoloPlayUnrealPlugin-1.4.0-UE5.0/Source/HoloPlayRuntime/Private/Render/HoloPlayViewportClient.cpp:419 | moving a block of n pixels leaves the copied block at the destination and every other pixel unchanged, whichever way the blocks overlap |
| Clip.MovedMeaning | ULLG/Plugins/HoloPlayUnrealPlugin-1.4.0-UE5.0/Source/HoloPlayRuntime/Private/Render/HoloPlayViewportClient.cpp:419 | a move leaves the length alone, places the source block at the destination, and keeps what lies before and after it |
| Clip.ForceOpaque | ULLG/Plugins/HoloPlayUnrealPlugin-1.4.0-UE5.0/Source/HoloPlayRuntime/Private/Render/HoloPlayViewportClient.cpp:393-396 | every pixel becomes fully opaque with its colour kept, and pixels past the bitmap's count are untouched |
| Clip.OpaqueIdempotent | ULLG/Plugins/HoloPlayUnrealPlugin-1.4.0-UE5.0/Source/HoloPlayRuntime/Private/Render/HoloPlayViewportClient.cpp:395 | forcing opacity keeps the colour, sets alpha to 255, and twice is the same as once |
| Clip.RenderTargetScreenShot | ULLG/Plugins/HoloPlayUnrealPlugin-1.4.0-UE5.0/Source/HoloPlayRuntime/Private/Render/HoloPlayViewportClient.cpp:382-402 | the result is whether the read succeeded, and only then is every pixel made opaque |
| Text.TrimStartSuffix | ULLG/Plugins/HoloPlayUnrealPlugin-1.4.0-UE5.0/Source/HoloPlayRuntime/Private/Render/HoloPlayViewportClient.cpp:901-903 | trimming the start removes exactly the leading whitespace |
| Text.TrimEndPrefix | ULLG/Plugins/HoloPlayUnrealPlugin-1.4.0-UE5.0/Source/HoloPlayRuntime/Private/Render/HoloPlayViewportClient.cpp:915-917 | trimming the end removes exactly the trailing whitespace |
| Text.TrimSlice | ULLG/Plugins/HoloPlayUnrealPlugin-1.4.0-UE5.0/Source/HoloPlayRuntime/Private/Render/HoloPlayViewportClient.cpp:901-903 | the trimmed text is a slice of the original with no whitespace at either end |
| Text.TrimIdempotent | ULLG/Plugins/HoloPlayUnrealPlugin-1.4.0-UE5.0/Source/HoloPlayRuntime/Private/Render/HoloPlayViewportClient.cpp:915-917 | trimming twice is the same as trimming once |
| Text.ToLowerPointwise | ULLG/Plugins/HoloPlayUnrealPlugin-1.4.0-UE5.0/Source/HoloPlayRuntime/Private/Render/HoloPlayViewportClient.cpp:903 | lower-casing maps each character independently |
| Text.EqualsIgnoreCaseMeaning | ULLG/Plugins/HoloPlayUnrealPlugin-1.4.0-UE5.0/Source/HoloPlayRuntime/Private/Render/HoloPlayViewportClient.cpp:890-893 | two texts are equal ignoring case exactly when their lower-case forms are equal |
| Text.IsNumericMeaning | ULLG/Plugins/HoloPlayUnrealPlugin-1.4.0-UE5.0/Source/HoloPlayRuntime/Private/Render/HoloPlayViewportClient.cpp:923 | a text is numeric exactly when it is non-empty and, after an optional sign, holds only digits and at most one dot |
| Text.LeadingDigitsPrefix | ULLG/Plugins/HoloPlayUnrealPlugin-1.4.0-UE5.0/Source/HoloPlayRuntime/Private/Render/HoloPlayViewportClient.cpp:714 | the leading digits are a prefix of digits followed by a non-digit or the end |
| Text.AtoiOfDecimal | ULLG/Plugins/HoloPlayUnrealPlugin-1.4.0-UE5.0/Source/HoloPlayRuntime/Private/Render/HoloPlayViewportClient.cpp:714 | a written number, followed by anything not a digit, reads back as itself |
| Text.AtoiOfNegatedDecimal | ULLG/Plugins/HoloPlayUnrealPlugin-1.4.0-UE5.0/Source/HoloPlayRuntime/Private/Render/HoloPlayViewportClient.cpp:714 | a minus sign followed by a written number reads back as its negation |
| Text.CommandMatches | ULLG/Plugins/HoloPlayUnrealPlugin-1.4.0-UE5.0/Source/HoloPlayRuntime/Private/Render/HoloPlayViewportClient.cpp:611 | a command word followed by a non-word character matches, with the blanks after it skipped |
| Text.CommandSpaced | ULLG/Plugins/HoloPlayUnrealPlugin-1.4.0-UE5.0/Source/HoloPlayRuntime/Private/Render/HoloPlayViewportClient.cpp:694 | a word, a blank and an argument that starts with no blank yields exactly the argument |
| Text.CommandSeparated | ULLG/Plugins/HoloPlayUnrealPlugin-1.4.0-UE5.0/Source/HoloPlayRuntime/Private/Render/HoloPlayViewportClient.cpp:611-643 | a word that differs from the command, or that continues with another word character, does not match |
| Text.Split | ULLG/Plugins/HoloPlayUnrealPlugin-1.4.0-UE5.0/Source/HoloPlayRuntime/Private/Render/HoloPlayViewportClient.cpp:880 | splitting on a separator yields only non-empty pieces without separators |
| Text.FirstWord | ULLG/Plugins/HoloPlayUnrealPlugin-1.4.0-UE5.0/Source/HoloPlayRuntime/Private/Render/HoloPlayViewportClient.cpp:880-883 | the first word is the prefix up to the first separator |
| Text.FirstWordOf | ULLG/Plugins/HoloPlayUnrealPlugin-1.4.0-UE5.0/Source/HoloPlayRuntime/Private/Render/HoloPlayViewportClient.cpp:880-883 | a word followed by a separator or by nothing is the first word |
| Text.SplitSingleWord | ULLG/Plugins/HoloPlayUnrealPlugin-1.4.0-UE5.0/Source/HoloPlayRuntime/Private/Render/HoloPlayViewportClient.cpp:880-888 | a text without separators splits into itself, or into nothing when empty |
| Text.SplitLeadingWord | ULLG/Plugins/HoloPlayUnrealPlugin-1.4.0-UE5.0/Source/HoloPlayRuntime/Private/Render/HoloPlayViewportClient.cpp:880-883 | leading separators are dropped and the first piece is the run of non-separators after them, followed by the pieces of the rest |
| Text.SplitAroundSeparator | ULLG/Plugins/HoloPlayUnrealPlugin-1.4.0-UE5.0/Source/HoloPlayRuntime/Private/Render/HoloPlayViewportClient.cpp:880 | splitting at a separator gives the pieces before it followed by the pieces after it |
| Text.SplitWordAroundSeparator | ULLG/Plugins/HoloPlayUnrealPlugin-1.4.0-UE5.0/Source/HoloPlayRuntime/Private/Render/HoloPlayViewportClient.cpp:880 | the same when the text before the separator starts with a word |
| Text.ToLowerAppend | ULLG/Plugins/HoloPlayUnrealPlugin-1.4.0-UE5.0/Source/HoloPlayRuntime/Private/Render/HoloPlayViewportClient.cpp:903 | lower-casing a concatenation lower-cases each part |
| Text.ToLowerDigits | ULLG/Plugins/HoloPlayUnrealPlugin-1.4.0-UE5.0/Source/HoloPlayRuntime/Private/Render/HoloPlayViewportClient.cpp:903 | lower-casing leaves digits alone |

## Left out

- Engine routines: `FParse::Command`, `FParse::Param`, `FCString::Atoi`, `FCString::Atof`, `FString::IsNumeric`, trimming, lower-casing and `FPaths` are not in the repository. They are modelled from their documented behaviour on ASCII text, with `Atoi` as sign plus digit prefix.
- Text.HasParam: `FParse::Param` tokens are broken at space, tab, newline and carriage return; its skipping of quoted text and the engine's wider whitespace class (other control and Unicode spaces) are not modelled.
- Console.ParseResolution: the source parses both values with `FCString::Atof` and truncates them to `uint32`. The model reads the whole part with a digit-prefix `Atoi`, takes negative values to 0 and reduces the rest modulo 2^32; fractional and exponent forms, float rounding and the out-of-range float conversion are not modelled.
- Atoi overflow: the numbers are unbounded; 32-bit wrap-around of `FCString::Atoi` on very long digit strings is not modelled, except the byte cast of the placement and the signed conversion of the client size.
- Tiling.Geometry.NumTiles: the contract states that the count covers each axis's tile count; the `int32` overflow of the product is not modelled.
- Floating point: `PortionX`/`PortionY` in `Setup`, `GetCustomAspect` (with its unchecked zero divisor) and `SetCustomAspect` are not modelled. Tiles fitting in the quilt is stated with integers instead.
- Viewport.ViewportClient.HandleShaderCommand: the `Pitch`, `Center`, `ViewCone`, `DPI`, `CustomAspectX` and `CustomAspectY` words write floating-point calibration values. They are routed, handled and saved, but their written value is not modelled.
- Image capture and files: `ReadPixels`, `FSlateApplication::TakeScreenshot`, `GetViewportScreenShot`, image compression and `SaveArrayToFile` are inputs that say whether a capture succeeded, or an optional saved name. `GenerateNextBitmapFilename`, which scans the file system, is a function parameter. The game's screenshot directory is a parameter too.
- GPU and render thread: `ENQUEUE_RENDER_COMMAND`, `FlushRenderingCommands` and the copy and lenticular shaders appear only as trace events. The placement of tiles in the quilt lives in a render file that is not part of this model.
- Viewport.ViewportClient.Draw: the `uint32` view counter is an unbounded natural; wrap-around after 2^32 views is not modelled.
- Clip.ClipScreenshot: it has no caller in the core, because both call sites are commented out. It is modelled on its own, with the rectangle inside the image as the precondition the commented-out callers establish.
- Global screenshot resolution variables (`GScreenshotResolutionX/Y`) and the high-resolution mask array are not modelled.
- Delegates and the runtime: screenshot-captured notifications are counters. `RestartPlayer` and `UpdateTillingProperties` are recorded in logs. Whether the viewport and the capture component exist are inputs.
- Input routing: `InputKey`, `InputAxis`, `InputTouch`, `InputChar`, `InputMotion`, focus queries and redraw requests are engine player-controller plumbing.
- `HoloPlaySave` and config saving are a save counter; `UpdateVsync` and the console variable it sets are engine hooks.
- EditorCommands.RepeatLastPlayCanExecute: the command list does not bind it (its binding is commented out), so it is modelled and related to the guards, but it does not guard the repeat command.
- `OpenHoloPlaySettings_Clicked` and `CloseHoloPlayWindow_Clicked` are recorded as runtime calls; the settings viewer itself is not modelled.
- Editor user interface: `HoloPlayToolbar.cpp`, the capture-resolution customization, the editor module, the command declarations and the build rules are not part of this model.
- `HoloPlaySettings.cpp` (the vsync variable and `PostEditChangeProperty`) and `Misc/HoloPlayHelpers` are engine hooks and are not part of this model.
- Console.LoneNoSuffixIsName: `ParseScreenshotCommand` uses a lone `-nosuffix` both as the flag and as the file name. The model keeps that behaviour as written.
