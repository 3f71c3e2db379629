# Image channel shuffle tool — verified model

The tool batch-processes image files. It shrinks each image so that its long
side fits a target size (1024, 512 or 256), never enlarging it. It then splits
the image into its R, G, B and A planes. Each output channel takes the plane
named in the channel map, complemented (`255 - v`) when that channel's invert
box is ticked. The four planes are merged back into an RGBA image, which is
saved as `<directory>/<name>.tga`. The batch driver keeps an ordered list of
files, processes them one by one, writes one result line per file, counts the
successes and clears the list at the end.

This project models that core in Dafny, one module per concern:

- `results.dfy` (`Results`): outcome types that stand in for exceptions.
- `images.dfy` (`Images`): channels, per-channel values, and RGBA images as four sample planes.
- `resize.dfy` (`Resize`): the long-side-fit dimensions and the resize step.
- `channels.dfy` (`Channels`): invert, remap and merge, as a specification function and as the loop method the source runs.
- `paths.dfy` (`Paths`): POSIX `os.path.split`, `splitext`, `join`, and the output path.
- `pipeline.dfy` (`Pipeline`): `process_image`, with the image library passed in as a parameter.
- `app.dfy` (`App`): the application object's file list, with `add_files`, `clear_list` and `process_images`.

The image library and the file system are passed in as a `Codec` value:
opening a file as RGBA, Lanczos resampling, and saving a TGA file. Each of
these may fail with a message. A `Codec` is a set of pure functions fixed for
the whole batch. So the model assumes that opening the same path always gives
the same answer, and that a save never changes what a later open in the same
batch reads. Beyond that, nothing about their internals is assumed, except
where a lemma states it as a precondition (for example, that the resampler
returns an image of the requested size).

`ChannelShuffle.py` always writes a TGA file next to the source file, named
after the source file's stem. It has no choice of output format (PNG or JPEG)
and no mode that overwrites the source file in place.

## Model

| member | source | states |
|---|---|---|
| `Resize.LongSide` | ChannelShuffle.py:135-136 | The long side is the larger of width and height: at least each, and equal to one of them |
| `Resize.FitSize` | ChannelShuffle.py:133-142 | An image whose long side is at most the target keeps its size |
| `Resize.FitSizeTruncatesScaledSides` | ChannelShuffle.py:141-142 | When shrinking, each new side is the largest whole number not exceeding side * target / long side |
| `Resize.FitSizeNeverUpscales` | ChannelShuffle.py:136-143 | Neither side ever grows, and the long side never grows |
| `Resize.FitSizeLongSideIsTarget` | ChannelShuffle.py:141-142 | A shrunk image's long side equals the target exactly, in the model's integer arithmetic; the program's float arithmetic gives the target or one less (see `Resize.FitSize` under "## Left out") |
| `Resize.FitSizeCollapses` | ChannelShuffle.py:142 | A shrunk side becomes 0 pixels exactly when side * target < long side |
| `Resize.FitSizeKeepsOrientation` | ChannelShuffle.py:141-142 | The sides' order is kept: a size no wider than tall stays no wider than tall, and one no taller than wide stays no taller than wide |
| `Resize.FitSizeIdempotent` | ChannelShuffle.py:136-142 | Fitting an already fitted size leaves it unchanged |
| `Resize.ResizeImage` | ChannelShuffle.py:133-143 | The very same image (size and pixels) when the long side is within the target; otherwise the resampler's result at the fitted size |
| `Resize.ResizeImageShape` | ChannelShuffle.py:141-143 | With a size-honouring resampler, a resized image is well formed, has the fitted size, and its long side is the target when it shrank |
| `Channels.InvertPlane` | ChannelShuffle.py:167-168 | The inverted plane has the same length and each sample is the 255-complement of the original |
| `Channels.InvertPlaneKeepsRange` | ChannelShuffle.py:167-168 | Inverting keeps every sample within 0..255 and the plane size unchanged |
| `Channels.InvertPlaneInvolutive` | ChannelShuffle.py:167-168 | Inverting twice gives back the original plane |
| `Channels.OutputPlane` | ChannelShuffle.py:164-168 | Output channel c gets the plane of the source channel named by the map, of the same length, each sample complemented exactly when c's invert flag is set |
| `Channels.Remap` | ChannelShuffle.py:157-171 | Remapping never changes width or height |
| `Channels.Merge` | ChannelShuffle.py:171 | Merged planes land in the channels R, G, B, A in list order |
| `Channels.RemapChannels` | ChannelShuffle.py:157-171 | The loop over R, G, B, A followed by the merge computes exactly the remapped image |
| `Channels.RemapSample` | ChannelShuffle.py:162-169 | Output channel c at pixel i is the source channel's sample, complemented exactly when c's invert flag is set |
| `Channels.RemapKeepsValid` | ChannelShuffle.py:157-171 | Remapping a well-formed image gives a well-formed image of the same size |
| `Channels.RemapIdentity` | ChannelShuffle.py:162-171 | With the identity map and no inversion, the image comes out unchanged |
| `Channels.RemapFanOut` | ChannelShuffle.py:163-169 | Two output channels with the same source and invert flag get identical planes |
| `Channels.RemapCompose` | ChannelShuffle.py:162-171 | Two remaps in a row equal one remap by the composed map, with the invert flags combined by exclusive or |
| `Channels.RemapInvertTwice` | ChannelShuffle.py:167-168 | Applying the same invert-only remap twice restores the image |
| `Paths.Split` | ChannelShuffle.py:174 | The tail is everything after the last slash. The head is a prefix of the path, separated from the tail only by slashes, and stripped of trailing slashes unless it is all slashes |
| `Paths.SplitParts` | ChannelShuffle.py:174 | Splitting fixes both parts: the tail is the text after the last slash; the head is the text before it with trailing slashes removed, or all of it when it is nothing but slashes (so `/a` splits into `/` and `a`) |
| `Paths.Basename` | ChannelShuffle.py:234-237 | The name shown in a result line contains no slash |
| `Paths.SplitExt` | ChannelShuffle.py:175 | Root + extension is the name, and the extension is empty or one dot followed by characters that are neither dots nor slashes |
| `Paths.SplitExtFindsExtension` | ChannelShuffle.py:175 | A file name gets an extension exactly when some dot in it follows a character other than a dot |
| `Paths.Stem` | ChannelShuffle.py:175 | The name without extension is a prefix of the file name |
| `Paths.Join` | ChannelShuffle.py:176 | The joined path ends with the file name, and an absolute second part replaces the first |
| `Paths.OutputPath` | ChannelShuffle.py:174-176 | The output path ends in .tga |
| `Paths.OutputPathSplit` | ChannelShuffle.py:174-176 | Splitting the output path gives back the source's directory and the stem followed by .tga |
| `Paths.OutputPathExtension` | ChannelShuffle.py:175-176 | If the stem has a character other than a dot, the output name's extension is exactly .tga and its root is the stem |
| `Paths.OutputPathOverwritesTga` | ChannelShuffle.py:174-177 | A .tga file named without a directory is written over itself |
| `Pipeline.TransformImage` | ChannelShuffle.py:154-171 | A resize failure is passed on. Otherwise the result is the remap of the resized image |
| `Pipeline.ProcessImage` | ChannelShuffle.py:145-180 | A success reports the .tga output path, which is never empty, so the caller's `if result_path` test and the success case coincide |
| `Pipeline.ProcessImageWrittenIff` | ChannelShuffle.py:147-178 | A file is written exactly when opening, resizing and saving the transformed image to the output path all succeed |
| `Pipeline.ProcessImageFailureMessage` | ChannelShuffle.py:179-180 | A failure carries the message of the first stage that raised |
| `Pipeline.TransformImageShape` | ChannelShuffle.py:154-171 | The saved image is well formed and has the fitted size |
| `Pipeline.DefaultConfigKeepsSmallImage` | ChannelShuffle.py:16-30 | With the initial settings, an image whose long side is at most 1024 is passed through unchanged |
| `App.CountWritten` | ChannelShuffle.py:233-235 | The success count is at most the number of files, and equals it exactly when every file was written |
| `App.LineFor` | ChannelShuffle.py:233-237 | A success line exactly when the file was written, naming the written file; otherwise a failure line naming the source file and carrying the error |
| `App.BatchResults` | ChannelShuffle.py:223-231 | One result per file of the list |
| `App.BatchLines` | ChannelShuffle.py:223-237 | One result line per file, in list order, the k-th being the line for the k-th file and its result |
| `App.SucceededLinesMatchWritten` | ChannelShuffle.py:233-237 | The number of success lines equals the number of written files |
| `App.BatchResultsAt` | ChannelShuffle.py:223-231 | The k-th result of a batch is process_image applied to the k-th file of the list |
| `App.BatchLinesFacts` | ChannelShuffle.py:223-244 | One line per file in input order: a success line with the written file's name exactly when that file was written, otherwise a failure line with the source file's name and the error; the number of success lines is the success count, at most the total |
| `App.ImageProcessorApp.constructor` | ChannelShuffle.py:36 | The file list starts empty |
| `App.ImageProcessorApp.AddFiles` | ChannelShuffle.py:111-122 | The chosen files are appended to the list in order |
| `App.ImageProcessorApp.ClearList` | ChannelShuffle.py:124-126 | The list becomes empty |
| `App.ImageProcessorApp.ProcessImages` | ChannelShuffle.py:182-253 | With an empty list, only a warning. Otherwise one result line per file in order, the count of written files, and the total. The list is empty afterwards |

## Left out

- `Resize.FitSize`: uses exact integer arithmetic, side * target / long side truncated. The source multiplies by a floating-point `target / long_side`, and double-precision rounding often makes that product fall just below a whole number. The program's side is then one pixel less than the model's. This is not rare. For long sides from target + 1 to 8192 it hits the long side itself for 1090 of 7936 lengths at target 256, 1069 of 7680 at 512 and 1013 of 7168 at 1024, about one in seven. For example, at long side 1138 and target 1024, `1024 / 1138` is 0.8998242530755711 and 1138 times that is 1023.9999999999999, so the program gives 1023 where the model gives 1024. Short sides are affected the same way: side 161 of long side 322 at target 256 gives 127 in the program and 128 in the model. Float rounding is not modelled.
- Lanczos resampling of pixel data is a library routine. It is the `resample` parameter of the codec and is described only by the sizes it must honour.
- Decoding, conversion to RGBA, and TGA encoding are library calls and file I/O. They are the `open` and `save` parameters of the codec, and errors are modelled as messages. Closing the file at the end of the `with` block is not modelled.
- What the image library does with a 0-pixel side is not modelled. `FitSizeCollapses` states when such a side arises. Any exception the library raises there ends up as a failure message, like every other stage.
- Windows path rules (drive letters, backslash separators) are not modelled. Paths follow the POSIX rules for `split`, `splitext` and `join`.
- The source reads the form's settings for every file. The model takes one `Config` snapshot per batch, because the progress window is modal and the settings cannot change mid-batch.
- The Tkinter user interface is left out: window layout, radio buttons, combo boxes, the file dialog in `add_files` (its result is the `chosen` parameter), `update_file_listbox`, the progress window and bar, status labels, and message boxes. As a consequence, the model's batch always runs to the end and then clears the list. In the program, closing the progress window mid-batch makes the next progress or result-list update raise outside `process_image`'s `try`, which ends `process_images` early without clearing the file list.
- `App.ImageProcessorApp.ProcessImages`: the file system is taken as unchanged during a batch, so each entry is processed against the contents from before the batch. The cases where the batch reads its own output are not modelled. One example is `d/a.png` followed by `d/a.tga`: the second entry reads the file the first one just wrote, remaps it a second time and overwrites it. Another is a duplicate entry in the list. A third is `d/a.png` and `d/a.jpg`, which both write `d/a.tga`, so the later one wins.
- The progress percentage is UI-only float arithmetic and is left out.
- Result lines are data (`Succeeded` and `FailedLine`). The exact Chinese display strings are not modelled.
