/**
 * process_image: decode, resize, remap channels and save one file as TGA,
 * turning any exception into a failure message.
 */
module Pipeline {
  import opened Results
  import opened Images
  import opened Resize
  import opened Channels
  import opened Paths

  /** The settings read from the form: target size, channel sources and invert flags. */
  datatype Config = Config(targetSize: nat, channelMap: PerChannel<Channel>, invertOptions: PerChannel<bool>)

  /** The form's initial settings: 1024, every channel from itself, nothing inverted. */
  const DefaultConfig: Config := Config(1024, IdentityMap, NoInvert)

  /**
   * The image library: opening a file as RGBA, Lanczos resampling, and saving
   * a TGA file; each may raise, which is represented by an error message.
   */
  datatype Codec = Codec(
    open: string -> Result<Image>,
    resample: Resampler,
    save: (string, Image) -> Outcome)

  /** What process_image returns: the written path, or the exception's message; never both. */
  datatype ProcessResult = Written(path: string) | Failed(message: string)

  /** Resize, then split / remap / invert / merge. */
  function TransformImage(cfg: Config, resample: Resampler, img: Image): (r: Result<Image>)
    ensures ResizeImage(img, cfg.targetSize, resample).Err? ==> r == Err(ResizeImage(img, cfg.targetSize, resample).message)
    ensures ResizeImage(img, cfg.targetSize, resample).Ok? ==>
      r == Ok(Remap(cfg.channelMap, cfg.invertOptions, ResizeImage(img, cfg.targetSize, resample).value))
  {
    match ResizeImage(img, cfg.targetSize, resample)
    case Err(m) => Err(m)
    case Ok(resized) => Ok(Remap(cfg.channelMap, cfg.invertOptions, resized))
  }

  function ProcessImage(cfg: Config, codec: Codec, path: string): (r: ProcessResult)
    ensures r.Written? ==> r.path == OutputPath(path) && r.path != []
  {
    match codec.open(path)
    case Err(m) => Failed(m)
    case Ok(img) =>
      match TransformImage(cfg, codec.resample, img)
      case Err(m) => Failed(m)
      case Ok(out) =>
        var newPath := OutputPath(path);
        match codec.save(newPath, out)
        case Fail(m) => Failed(m)
        case Pass => Written(newPath)
  }

  /**
   * A file is written exactly when it opens, resizes and saves without error,
   * and what is saved is the transformed image at the .tga path.
   */
  lemma ProcessImageWrittenIff(cfg: Config, codec: Codec, path: string)
    ensures ProcessImage(cfg, codec, path).Written? <==>
      && codec.open(path).Ok?
      && TransformImage(cfg, codec.resample, codec.open(path).value).Ok?
      && codec.save(OutputPath(path), TransformImage(cfg, codec.resample, codec.open(path).value).value) == Pass
  {
  }

  /**
   * A failure carries the message of the first stage that raised:
   * opening, then resampling, then saving.
   */
  lemma ProcessImageFailureMessage(cfg: Config, codec: Codec, path: string)
    requires ProcessImage(cfg, codec, path).Failed?
    ensures var m := ProcessImage(cfg, codec, path).message;
      || codec.open(path) == Err(m)
      || (codec.open(path).Ok? && TransformImage(cfg, codec.resample, codec.open(path).value) == Err(m))
      || (codec.open(path).Ok? && TransformImage(cfg, codec.resample, codec.open(path).value).Ok?
          && codec.save(OutputPath(path), TransformImage(cfg, codec.resample, codec.open(path).value).value) == Fail(m))
  {
  }

  /**
   * For a well-formed decoded image and a resampler that honours sizes, the
   * transformed image is well formed and has the fitted size, whose long side
   * is the target whenever the image had to shrink.
   */
  lemma TransformImageShape(cfg: Config, resample: Resampler, img: Image)
    requires img.Valid() && HonoursSize(resample)
    requires TransformImage(cfg, resample, img).Ok?
    ensures var out := TransformImage(cfg, resample, img).value;
      && out.Valid()
      && out.Dimensions() == FitSize(img.Dimensions(), cfg.targetSize)
      && (LongSide(img.Dimensions()) > cfg.targetSize ==> LongSide(out.Dimensions()) == cfg.targetSize)
  {
    ResizeImageShape(img, cfg.targetSize, resample);
    var resized := ResizeImage(img, cfg.targetSize, resample).value;
    RemapKeepsValid(cfg.channelMap, cfg.invertOptions, resized);
  }

  /** With the default settings, an image whose long side is at most 1024 is passed through pixel for pixel. */
  lemma DefaultConfigKeepsSmallImage(resample: Resampler, img: Image)
    requires LongSide(img.Dimensions()) <= DefaultConfig.targetSize
    ensures TransformImage(DefaultConfig, resample, img) == Ok(img)
  {
    RemapIdentity(img);
  }
}
