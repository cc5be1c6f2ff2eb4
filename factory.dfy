/**
 * RepoBSONFactory: the sole constructor surface for nodes. Each make*Node
 * builds an immutable node from caller-supplied data. IDs the factory would
 * mint are passed in as an Ids pair the generator has minted (non-default).
 */
module BsonFactory {
  import opened Wrappers
  import opened Vectors
  import opened Matrix4
  import opened Nodes
  import opened Geometry

  /** Why a mesh node could not be built. */
  datatype MeshError = NormalCountMismatch(normals: nat, vertices: nat)

  /** Why a metadata node could not be built. */
  datatype MetadataError = KeyValueCountMismatch(keys: nat, values: nat) | DuplicateKey(key: string)

  // ---------------------------------------------------------------------
  // Material

  /** makeMaterialNode: a named material node carrying the struct unchanged. */
  function MakeMaterialNode(ids: Ids, material: MaterialStruct, name: string): (n: Node)
    requires Minted(ids)
    ensures TypeOf(n) == Material && n.name == name && n.body.material == material
    ensures !IsDefault(n.ids.unique) && !IsDefault(n.ids.shared) && n.parents == []
  {
    Node(ids, name, [], MaterialBody(material))
  }

  // ---------------------------------------------------------------------
  // Metadata

  /** True when no key occurs twice. */
  predicate DistinctKeys(keys: seq<string>) {
    forall i, j | 0 <= i < j < |keys| :: keys[i] != keys[j]
  }

  /** The key at each position mapped to the value at the same position. */
  function Zip(keys: seq<string>, values: seq<Variant>): (m: map<string, Variant>)
    requires |keys| == |values| && DistinctKeys(keys)
    ensures m.Keys == set k | k in keys
    ensures forall i | 0 <= i < |keys| :: m[keys[i]] == values[i]
  {
    if keys == [] then map[]
    else
      var rest := Zip(keys[1..], values[1..]);
      assert forall i | 1 <= i < |keys| :: keys[i] == keys[1..][i - 1];
      rest[keys[0] := values[0]]
  }

  /** The first key that occurs again later, if any. */
  function FirstDuplicate(keys: seq<string>): (r: Option<string>)
    ensures r.None? <==> DistinctKeys(keys)
    ensures r.Some? ==> exists i, j | 0 <= i < j < |keys| :: keys[i] == r.value && keys[j] == r.value
  {
    if keys == [] then None
    else if keys[0] in keys[1..] then
      var j :| 0 <= j < |keys[1..]| && keys[1..][j] == keys[0];
      assert keys[j + 1] == keys[0];
      Some(keys[0])
    else
      var r := FirstDuplicate(keys[1..]);
      if r.None? then
        assert forall i, j | 0 <= i < j < |keys| :: keys[i] != keys[j] by {
          forall i, j | 0 <= i < j < |keys| ensures keys[i] != keys[j] {
            if i > 0 {
              assert keys[i] == keys[1..][i - 1] && keys[j] == keys[1..][j - 1];
            } else {
              assert keys[j] == keys[1..][j - 1];
            }
          }
        }
        None
      else
        var i, j :| 0 <= i < j < |keys[1..]| && keys[1..][i] == r.value && keys[1..][j] == r.value;
        assert keys[i + 1] == r.value && keys[j + 1] == r.value;
        r
  }

  /**
   * makeMetaDataNode: a named metadata node mapping each key to the value at
   * the same position. Unequal key and value counts, or a repeated key, are
   * reported and no node is built.
   */
  function MakeMetaDataNode(ids: Ids, keys: seq<string>, values: seq<Variant>, name: string)
    : (r: Result<Node, MetadataError>)
    requires Minted(ids)
    ensures |keys| != |values| ==> r == Err(KeyValueCountMismatch(|keys|, |values|))
    ensures |keys| == |values| && !DistinctKeys(keys) ==> r.Err? && r.error.DuplicateKey? && r.error.key in keys
    ensures r.Ok? <==> |keys| == |values| && DistinctKeys(keys)
    ensures r.Ok? ==> TypeOf(r.value) == Metadata && r.value.name == name && r.value.ids == ids
    ensures r.Ok? ==> r.value.body.entries.Keys == set k | k in keys
    ensures r.Ok? ==> forall i | 0 <= i < |keys| :: r.value.body.entries[keys[i]] == values[i]
  {
    if |keys| != |values| then Err(KeyValueCountMismatch(|keys|, |values|))
    else match FirstDuplicate(keys)
      case Some(k) => Err(DuplicateKey(k))
      case None => Ok(Node(ids, name, [], MetadataBody(Zip(keys, values))))
  }

  // ---------------------------------------------------------------------
  // Mesh

  /**
   * makeMeshNode: a mesh node keeping vertices, normals, faces and bounding
   * box, keeping only the UV channels with one coordinate per vertex, and
   * storing the primitive inferred from the faces when there are faces.
   * Normals that are present but not one per vertex are reported and no node
   * is built.
   */
  function MakeMeshNode(ids: Ids, vertices: seq<Vec3>, faces: seq<Face>, normals: seq<Vec3>,
                        bounds: Bounds, uvChannels: seq<seq<Vec2>>): (r: Result<Node, MeshError>)
    requires Minted(ids)
    ensures r.Err? <==> normals != [] && |normals| != |vertices|
    ensures r.Err? ==> r.error == NormalCountMismatch(|normals|, |vertices|)
    ensures r.Ok? ==> TypeOf(r.value) == Mesh && r.value.ids == ids && r.value.parents == []
    ensures r.Ok? ==> (r.value.body.vertices == vertices && r.value.body.normals == normals &&
                       r.value.body.faces == faces && r.value.body.bounds == bounds)
    ensures r.Ok? ==> r.value.body.uvChannels == KeptChannels(uvChannels, |vertices|)
    ensures r.Ok? && faces == [] ==> GetPrimitive(r.value) == Triangles
    ensures r.Ok? && faces != [] ==> GetPrimitive(r.value) == InferPrimitive(faces)
  {
    if normals != [] && |normals| != |vertices| then
      Err(NormalCountMismatch(|normals|, |vertices|))
    else
      var primitive := if faces == [] then None else Some(InferPrimitive(faces));
      Ok(Node(ids, "", [], MeshBody(vertices, normals, faces, KeptChannels(uvChannels, |vertices|), bounds, primitive)))
  }

  /** A mesh of triangles keeps all its geometry, its full UV channels, and reports TRIANGLES. */
  lemma TriangleMeshRoundTrip(ids: Ids, vertices: seq<Vec3>, faces: seq<Face>, normals: seq<Vec3>,
                              bounds: Bounds, uvChannels: seq<seq<Vec2>>)
    requires Minted(ids)
    requires |normals| == |vertices| && faces != [] && AllOfArity(faces, 3)
    requires forall i | 0 <= i < |uvChannels| :: KeepChannel(uvChannels[i], |vertices|)
    ensures var r := MakeMeshNode(ids, vertices, faces, normals, bounds, uvChannels);
      r.Ok? && r.value.body.uvChannels == uvChannels && GetPrimitive(r.value) == Triangles
      && !IsDefault(r.value.ids.unique) && !IsDefault(r.value.ids.shared)
  {
    KeptChannelsAllValid(uvChannels, |vertices|);
    TrianglesFromTriples(faces);
  }

  /**
   * Rebuilding a mesh with faces of 2 indices instead of 3 changes only the
   * faces and the primitive, which becomes LINES.
   */
  lemma RebuildWithLines(ids: Ids, ids': Ids, vertices: seq<Vec3>, triangles: seq<Face>, lines: seq<Face>,
                         normals: seq<Vec3>, bounds: Bounds, uvChannels: seq<seq<Vec2>>)
    requires Minted(ids) && Minted(ids')
    requires triangles != [] && AllOfArity(triangles, 3) && lines != [] && AllOfArity(lines, 2)
    ensures var r := MakeMeshNode(ids, vertices, triangles, normals, bounds, uvChannels);
      var r' := MakeMeshNode(ids', vertices, lines, normals, bounds, uvChannels);
      r.Ok? <==> r'.Ok?
    ensures var r := MakeMeshNode(ids, vertices, triangles, normals, bounds, uvChannels);
      var r' := MakeMeshNode(ids', vertices, lines, normals, bounds, uvChannels);
      r.Ok? ==> (GetPrimitive(r.value) == Triangles && GetPrimitive(r'.value) == Lines &&
                 r'.value.body == r.value.body.(faces := lines, primitive := Some(Lines)))
  {
    TrianglesFromTriples(triangles);
    LinesFromPairs(lines);
  }

  /**
   * Faces that are supplied but all empty give UNKNOWN, and with no UV
   * channels, one empty channel or two, the mesh has zero channels.
   */
  lemma EmptyFacesAndChannels(ids: Ids, vertices: seq<Vec3>, faces: seq<Face>, normals: seq<Vec3>,
                              bounds: Bounds, uvChannels: seq<seq<Vec2>>)
    requires Minted(ids)
    requires normals == [] || |normals| == |vertices|
    requires faces != [] && AllOfArity(faces, 0)
    requires uvChannels == [] || uvChannels == [[]] || uvChannels == [[], []]
    ensures var r := MakeMeshNode(ids, vertices, faces, normals, bounds, uvChannels);
      r.Ok? && GetPrimitive(r.value) == Unknown && NumUVChannels(r.value) == 0
      && r.value.body.uvChannels == []
  {
    UnknownFromEmptyFaces(faces);
    EmptyChannelLists(|vertices|);
  }

  // ---------------------------------------------------------------------
  // Transformation

  /**
   * makeTransformationNode: a named transformation node whose matrix is
   * built from the nested rows (the identity unless they are 4 rows of 4)
   * and whose parents are the given shared IDs.
   */
  function MakeTransformationNode(ids: Ids, rows: seq<seq<real>>, name: string, parents: seq<Uuid>)
    : (n: Node)
    requires Minted(ids)
    ensures TypeOf(n) == Transformation && n.name == name && n.ids == ids
    ensures multiset(n.parents) == multiset(parents)
    ensures IsFourByFour(rows) ==> forall r: nat, c: nat | r < 4 && c < 4 :: At(n.body.matrix, r, c) == rows[r][c]
    ensures !IsFourByFour(rows) ==> n.body.matrix == Identity()
  {
    Node(ids, name, parents, TransformationBody(FromNested(rows)))
  }

  /** The transformation built without a matrix or parents is the identity with no parents. */
  lemma DefaultTransformation(ids: Ids, name: string)
    requires Minted(ids)
    ensures var n := MakeTransformationNode(ids, [], name, []);
      n.body.matrix == Identity() && |n.parents| == 0
  {
  }

  /** A transformation built from 4 rows of 4 holds their row-major flattening. */
  lemma TransformationHoldsFlattening(ids: Ids, rows: seq<seq<real>>, name: string, parents: seq<Uuid>)
    requires Minted(ids) && IsFourByFour(rows)
    ensures MakeTransformationNode(ids, rows, name, parents).body.matrix == Flatten(rows)
  {
    FlattenFourByFour(rows);
  }

  // ---------------------------------------------------------------------
  // Texture

  /** The index of the last '.' in s, if there is one. */
  function LastDot(s: string): (r: Option<nat>)
    ensures r.None? <==> '.' !in s
    ensures r.Some? ==> r.value < |s| && s[r.value] == '.' && '.' !in s[r.value + 1..]
  {
    if s == [] then None
    else if s[|s| - 1] == '.' then Some(|s| - 1)
    else
      var r := LastDot(s[..|s| - 1]);
      assert forall c :: c in s <==> c in s[..|s| - 1] || c == s[|s| - 1];
      if r.Some? then
        assert s[r.value + 1..] == s[..|s| - 1][r.value + 1..] + [s[|s| - 1]];
        r
      else
        r
  }

  /**
   * The file extension of a texture name: the text after its last '.', or
   * the empty string when the name has no '.'.
   */
  function Extension(name: string): (ext: string)
    ensures '.' !in ext
    ensures '.' !in name ==> ext == ""
    ensures '.' in name ==> |ext| < |name| && name[|name| - |ext| - 1] == '.' && name[|name| - |ext|..] == ext
  {
    match LastDot(name)
    case None => ""
    case Some(i) => name[i + 1..]
  }

  /**
   * makeTextureNode: a named texture node holding the raw bytes, the width,
   * the height and the extension taken from the name.
   */
  function MakeTextureNode(ids: Ids, name: string, data: seq<Byte>, width: int, height: int): (n: Node)
    requires Minted(ids)
    ensures TypeOf(n) == Texture && n.name == name && n.ids == ids
    ensures n.body.data == data && n.body.width == width && n.body.height == height
    ensures n.body.extension == Extension(name)
  {
    Node(ids, name, [], TextureBody(data, width, height, Extension(name)))
  }

  /** The extension of "textureNode.jpg" is "jpg". */
  lemma ExtensionOfJpg()
    ensures Extension("textureNode.jpg") == "jpg"
  {
    var name := "textureNode.jpg";
    assert name[11] == '.' && name[12..] == "jpg";
    assert '.' in name;
    var ext := Extension(name);
    assert |ext| == 3;
  }

  /** A name with no '.' gives a texture node with an empty extension. */
  lemma NoExtensionName(ids: Ids, data: seq<Byte>, width: int, height: int)
    requires Minted(ids)
    ensures MakeTextureNode(ids, "noExtensionName", data, width, height).body.extension == ""
  {
  }

  // ---------------------------------------------------------------------
  // Reference

  /**
   * makeReferenceNode: a named reference to a revision of another project;
   * isUnique selects pinning to that specific revision.
   */
  function MakeReferenceNode(ids: Ids, database: string, project: string, revision: Uuid,
                             isUnique: bool, name: string): (n: Node)
    requires Minted(ids)
    ensures TypeOf(n) == Reference && n.name == name
    ensures n.body.database == database && n.body.project == project && n.body.revision == revision
    ensures n.body.specificRevision == isUnique
  {
    Node(ids, name, [], ReferenceBody(database, project, revision, isUnique))
  }

  // ---------------------------------------------------------------------
  // Revision

  /**
   * makeRevisionNode: a commit on the branch, whose shared ID is the branch
   * ID and whose unique ID is the revision ID, with its author, files,
   * parent revisions, coordinate offset, message and tag.
   */
  function MakeRevisionNode(author: string, branch: Uuid, revision: Uuid, files: seq<string>,
                            parents: seq<Uuid>, offset: seq<real>, message: string, tag: string): (n: Node)
    ensures TypeOf(n) == Revision
    ensures n.ids.shared == branch && n.ids.unique == revision
    ensures n.body.author == author && n.body.message == message && n.body.tag == tag
    ensures |n.body.files| == |files|
    ensures multiset(n.parents) == multiset(parents)
    ensures n.body.offset == offset
  {
    Node(Ids(revision, branch), "", parents, RevisionBody(author, files, offset, message, tag))
  }

  /** Empty parent lists give nodes with no parents: none is synthesised. */
  lemma NoSynthesisedParents(ids: Ids, rows: seq<seq<real>>, name: string, author: string, branch: Uuid,
                             revision: Uuid, files: seq<string>, offset: seq<real>, message: string, tag: string)
    requires Minted(ids)
    ensures |MakeTransformationNode(ids, rows, name, []).parents| == 0
    ensures |MakeRevisionNode(author, branch, revision, files, [], offset, message, tag).parents| == 0
  {
  }
}
