/**
 * build/move-images.js: `moveImages(configs)` clears IMAGES_ARE_MOVED and
 * VIDEOS_ARE_MOVED and starts three independent copies. The images copy
 * starts the favicon conversion, does not wait for it, sets
 * IMAGES_ARE_MOVED and publishes imagesMoved; the videos copy sets
 * VIDEOS_ARE_MOVED and publishes videosMoved; the text-file copy sets
 * nothing and publishes nothing. A copy error throws in its callback,
 * which then has no step here.
 */
module MoveImages {
  import opened CompletionFlags
  import opened BuildEvents
  import opened EventBus
  import opened BuildContext

  /** The call itself: both resets, then the three copies are pending. */
  method MoveImages(ctx: Build)
    modifies ctx
    ensures ctx.World() == StartTask(old(ctx.World()), EventBus.MoveImages)
    ensures !ctx.flags.imagesAreMoved && !ctx.flags.videosAreMoved
    ensures ctx.listeners == old(ctx.listeners) && ctx.names == old(ctx.names)
  {
    ResetOnlyClears(ctx.flags, EventBus.MoveImages, ImagesAreMoved);
    ResetOnlyClears(ctx.flags, EventBus.MoveImages, VideosAreMoved);
    ctx.Start(EventBus.MoveImages);
  }

  /**
   * The images copy finished: the favicon conversion is started and,
   * without waiting for it, the flag is set and the event published.
   */
  method ImagesCopied(ctx: Build)
    requires ctx.Valid()
    modifies ctx
    ensures ctx.listeners == old(ctx.listeners) && ctx.names == old(ctx.names) && ctx.Valid()
    ensures var started := StartTask(old(ctx.World()), MakeFaviconIco);
      && started.flags == old(ctx.flags)
      && (!old(ctx.exited) ==>
            ctx.World() == Dispatch(started.(flags := Set(old(ctx.flags), ImagesAreMoved, true)), ctx.listeners, ImagesMoved))
    ensures !old(ctx.exited) ==>
      |old(ctx.trace)| + 1 < |ctx.trace| && ctx.trace[|old(ctx.trace)|] == Started(MakeFaviconIco)
      && ctx.trace[|old(ctx.trace)| + 1] == Emitted(ImagesMoved, Set(old(ctx.flags), ImagesAreMoved, true))
  {
    assert ResetFlags(ctx.flags, MakeFaviconIco) == ctx.flags;
    ctx.Start(MakeFaviconIco);
    ghost var started := ctx.World();
    ctx.Complete(ImagesAreMoved, ImagesMoved);
    if !started.exited {
      DispatchExtends(started.(flags := Set(started.flags, ImagesAreMoved, true)), ctx.listeners, ImagesMoved);
    }
  }

  /** The videos copy finished: the flag is set and the event published. */
  method VideosCopied(ctx: Build)
    requires ctx.Valid()
    modifies ctx
    ensures ctx.listeners == old(ctx.listeners) && ctx.names == old(ctx.names) && ctx.Valid()
    ensures old(ctx.exited) ==> ctx.World() == old(ctx.World())
    ensures !old(ctx.exited) ==>
      ctx.World() == Dispatch(old(ctx.World()).(flags := Set(old(ctx.flags), VideosAreMoved, true)), ctx.listeners, VideosMoved)
    ensures !old(ctx.exited) ==>
      |old(ctx.trace)| < |ctx.trace| && ctx.trace[|old(ctx.trace)|] == Emitted(VideosMoved, Set(old(ctx.flags), VideosAreMoved, true))
  {
    ctx.Complete(VideosAreMoved, VideosMoved);
  }
}
