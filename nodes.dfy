/**
 * The node data model: identities, the seven node kinds the factory
 * builds (transformation, mesh, material, metadata, texture, reference and
 * revision) and the getters the nodes expose. A node is an immutable value;
 * the kinds form a closed set of variants sharing the identity, name and
 * parent fields.
 */
module Nodes {
  import opened Wrappers
  import opened Vectors
  import opened Matrix4

  /** A 128-bit UUID, held as its numeric value. */
  datatype Uuid = Uuid(value: nat)

  /** RepoUUID::defaultValue: the all-zero ID that means "not yet assigned". */
  const DefaultUuid: Uuid := Uuid(0)

  predicate IsDefault(u: Uuid) {
    u == DefaultUuid
  }

  /**
   * The unique ID (one per revision of an entity) and the shared ID (stable
   * across revisions, used in parent references) of a node.
   */
  datatype Ids = Ids(unique: Uuid, shared: Uuid)

  /** What the ID generator promises of a freshly minted pair: neither ID is the default. */
  predicate Minted(ids: Ids) {
    !IsDefault(ids.unique) && !IsDefault(ids.shared)
  }

  datatype NodeType = Transformation | Mesh | Material | Metadata | Texture | Reference | Revision

  /** The rendering topology of a mesh's faces. */
  datatype Primitive = Unknown | Lines | Triangles

  /** A face: the vertex indices of one line, triangle or other polygon. */
  type Face = seq<nat>

  type Byte = b: int | 0 <= b < 256

  /** repo_material_t: the shading parameters of a material. */
  datatype MaterialStruct = MaterialStruct(
    ambient: seq<real>, diffuse: seq<real>, specular: seq<real>, emissive: seq<real>,
    opacity: real, shininess: real, shininessStrength: real, lineWeight: real,
    isWireframe: bool, isTwoSided: bool)

  /** RepoVariant: a typed scalar metadata value. */
  datatype Variant = Text(s: string) | Number(r: real) | Integer(i: int) | Flag(b: bool)

  /** The part of a node that depends on its kind. */
  datatype Body =
    | TransformationBody(matrix: Matrix)
    | MeshBody(vertices: seq<Vec3>, normals: seq<Vec3>, faces: seq<Face>,
               uvChannels: seq<seq<Vec2>>, bounds: Bounds,
               primitive: Option<Primitive>)
    | MaterialBody(material: MaterialStruct)
    | MetadataBody(entries: map<string, Variant>)
    | TextureBody(data: seq<Byte>, width: int, height: int, extension: string)
    | ReferenceBody(database: string, project: string, revision: Uuid, specificRevision: bool)
    | RevisionBody(author: string, files: seq<string>, offset: seq<real>,
                   message: string, tag: string)

  /** A scene-graph or revision-graph node. */
  datatype Node = Node(ids: Ids, name: string, parents: seq<Uuid>, body: Body)

  /** getTypeAsEnum. */
  function TypeOf(n: Node): (t: NodeType)
    ensures t == Transformation <==> n.body.TransformationBody?
    ensures t == Mesh <==> n.body.MeshBody?
    ensures t == Material <==> n.body.MaterialBody?
    ensures t == Metadata <==> n.body.MetadataBody?
    ensures t == Texture <==> n.body.TextureBody?
    ensures t == Reference <==> n.body.ReferenceBody?
    ensures t == Revision <==> n.body.RevisionBody?
  {
    match n.body
    case TransformationBody(_) => Transformation
    case MeshBody(_, _, _, _, _, _) => Mesh
    case MaterialBody(_) => Material
    case MetadataBody(_) => Metadata
    case TextureBody(_, _, _, _) => Texture
    case ReferenceBody(_, _, _, _) => Reference
    case RevisionBody(_, _, _, _, _) => Revision
  }

  /**
   * MeshNode::getPrimitive: the primitive stored in the node, or TRIANGLES
   * when none was ever stored.
   */
  function GetPrimitive(n: Node): (p: Primitive)
    requires n.body.MeshBody?
    ensures n.body.primitive.Some? ==> p == n.body.primitive.value
    ensures n.body.primitive.None? ==> p == Triangles
  {
    match n.body.primitive
    case Some(q) => q
    case None => Triangles
  }

  /** MeshNode::getNumUVChannels. */
  function NumUVChannels(n: Node): (k: nat)
    requires n.body.MeshBody?
    ensures k == 0 <==> n.body.uvChannels == []
  {
    |n.body.uvChannels|
  }
}
