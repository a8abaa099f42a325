/** The records of `types.ts`: inventory items, the game state, story
    segments and the structured response of the narrative backend. */
module Types {
  import opened Optional

  /** The closed set of image resolution tiers; each carries its string
      value, which is what the image backend receives. */
  datatype ImageSize = Square1K | Square2K | Square4K {
    function Label(): string
    {
      match this
      case Square1K => "1K"
      case Square2K => "2K"
      case Square4K => "4K"
    }
  }

  /** The tiers in declaration order, as `Object.values(ImageSize)` lists
      them in the settings dialog. */
  const AllSizes: seq<ImageSize> := [Square1K, Square2K, Square4K]

  /** Reads a tier back from its string value; anything but the three
      values is not a tier. */
  function SizeFromLabel(s: string): (r: Option<ImageSize>)
    ensures forall z: ImageSize :: r == Some(z) <==> z.Label() == s
  {
    if s == "1K" then Some(Square1K)
    else if s == "2K" then Some(Square2K)
    else if s == "4K" then Some(Square4K)
    else None
  }

  /** Every tier is listed exactly once, and the labels tell the tiers apart. */
  lemma SizesClosed(z: ImageSize)
    ensures z in AllSizes && |AllSizes| == 3
    ensures forall i, j :: 0 <= i < j < |AllSizes| ==> AllSizes[i].Label() != AllSizes[j].Label()
    ensures SizeFromLabel(z.Label()) == Some(z)
  {
  }

  /** An item is identified by `id`; de-duplication and removal look only
      at `name`. */
  datatype InventoryItem = InventoryItem(id: string, name: string, description: Option<string>)

  datatype GameState = GameState(
    inventory: seq<InventoryItem>,
    currentQuest: string,
    location: string,
    imageSize: ImageSize)

  /** Who authored a segment: the player or the narrator backend. */
  datatype Role = User | Model

  /** One entry of the story history. `timestamp` is milliseconds since the
      epoch. */
  datatype StorySegment = StorySegment(
    id: string,
    role: Role,
    text: string,
    imageUrl: Option<string>,
    isLoadingImage: Option<bool>,
    options: Option<seq<string>>,
    timestamp: int)

  /** The delta lists; an absent list means "no change". */
  datatype InventoryChanges = InventoryChanges(add: Option<seq<string>>, remove: Option<seq<string>>)

  /** The decoded narrative response. `options` is declared required, but the
      decoded value is an unchecked cast, so its absence is kept
      representable (the caller guards it). */
  datatype AIResponse = AIResponse(
    narrative: string,
    options: Option<seq<string>>,
    inventoryChanges: InventoryChanges,
    questUpdate: Option<string>,
    visualDescription: string)
}
