/** The contract every sargassum index honours (Sargassum_Index.py): a name,
    an ordered list of required Sentinel-2 channels, and a compute operation
    from a channel dictionary to a result raster.  Python expresses it as a
    base class whose members are overridden; here the declared members are a
    Descriptor value and the base compute is a function that always fails.
    The two concrete indices are modules Afai and Asi, and module
    DetectSargassum dispatches between them. */
module SargassumIndex {
  import opened Common

  /** The channels dictionary built by the band loader: channel name to raster. */
  type ChannelMap = map<string, Grid<real>>

  /** The class-level declarations of an index: its name and its required
      channels.  None stands for Python's None, the base class's value. */
  datatype Descriptor = Descriptor(name: Option<string>, requiredChannels: Option<seq<string>>)

  /** The base class leaves both declarations unset. */
  const Base: Descriptor := Descriptor(None, None)

  /** A derived index sets its name and its list of required channels. */
  predicate Overrides(d: Descriptor) {
    d.name.Some? && d.requiredChannels.Some?
  }

  lemma BaseDoesNotOverride()
    ensures !Overrides(Base) && Base.name.None? && Base.requiredChannels.None?
  {
  }

  /** The base compute raises NotImplementedError whatever it is given. */
  function BaseCompute(channels: ChannelMap): (r: Result<Grid<real>>)
    ensures r.Failure? && r.error == NotImplemented
  {
    Failure(NotImplemented)
  }
}
