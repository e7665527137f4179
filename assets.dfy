/**
  The five asset slots of the external-import panel. Each slot owns one
  dropzone and accepts at most one file.
*/
module Assets {

  datatype Slot = Orthophoto | Dsm | Dtm | PointCloud | TexturedModel

  /** The slots in the order the panel lists them and creates their dropzones. */
  const AssetTypes: seq<Slot> := [Orthophoto, Dsm, Dtm, PointCloud, TexturedModel]

  /** The key a slot is known by: its form field name and its key in the panel's maps. */
  function Key(s: Slot): string
  {
    match s
    case Orthophoto => "orthophoto"
    case Dsm => "dsm"
    case Dtm => "dtm"
    case PointCloud => "pointcloud"
    case TexturedModel => "texturedmodel"
  }

  /** The slot list names every slot exactly once, and keys tell slots apart. */
  lemma AssetTypesEnumerateSlots()
    ensures forall s: Slot :: s in AssetTypes
    ensures forall i, j | 0 <= i < j < |AssetTypes| :: AssetTypes[i] != AssetTypes[j]
    ensures forall s: Slot, t: Slot :: Key(s) == Key(t) ==> s == t
  {
    forall s: Slot
      ensures s in AssetTypes
    {
      match s
      case Orthophoto => assert AssetTypes[0] == s;
      case Dsm => assert AssetTypes[1] == s;
      case Dtm => assert AssetTypes[2] == s;
      case PointCloud => assert AssetTypes[3] == s;
      case TexturedModel => assert AssetTypes[4] == s;
    }
  }

}
