/** Records of the plant catalogue and the small wrappers its operations return. */
module Types {

  datatype Option<+T> = None | Some(value: T)

  datatype Result<+R, +E> = Success(value: R) | Failure(error: E)

  /** The one application-level failure: an update names a plant id that is not there. */
  datatype ServiceError = NotFound(plantId: string)

  /** Milliseconds since the epoch, as `Date.getTime()` gives them. */
  type Timestamp = int

  /** A catalogued plant species. */
  datatype Plant = Plant(
    id: string,
    name: string,
    scientificName: Option<string>,
    description: string,
    location: seq<string>,
    climate: string,
    season: string,
    uses: seq<string>,
    imageUrl: string,
    createdAt: Timestamp,
    updatedAt: Timestamp)

  /** The fields a caller supplies to create a plant: everything except
      the id, the timestamps and the image path. */
  datatype PlantDraft = PlantDraft(
    name: string,
    scientificName: Option<string>,
    description: string,
    location: seq<string>,
    climate: string,
    season: string,
    uses: seq<string>)

  /** What a caller may put in the `uses` or `location` field of an update:
      the declared list, or (from an untyped form) a single string. */
  datatype TagsInput = Scalar(tag: string) | Tags(tags: seq<string>)

  /** A partial update: `None` is a field the update object does not carry. */
  datatype PlantUpdate = PlantUpdate(
    name: Option<string>,
    scientificName: Option<string>,
    description: Option<string>,
    location: Option<TagsInput>,
    climate: Option<string>,
    season: Option<string>,
    uses: Option<TagsInput>)

  /** A user remark attached to a plant. */
  datatype Comment = Comment(
    id: string,
    plantId: string,
    userId: string,
    userName: string,
    text: string,
    createdAt: Timestamp)

  /** The filter descriptor of a plant listing; every field optional. */
  datatype FilterValues = FilterValues(
    searchTerm: Option<string>,
    location: Option<string>,
    climate: Option<string>,
    season: Option<string>,
    uses: Option<string>)
}
