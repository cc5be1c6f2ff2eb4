# 3D Repo bouncer core: matrices and node factory, in Dafny

This project models two parts of the 3D Repo bouncer scene-graph engine,
which turns importer output into versioned, typed graph nodes:

- `RepoMatrix`: the 4×4 transform matrix, stored as 16 entries in row-major
  order. The model covers construction from flat, nested and raw input,
  `getData`, `transpose`, the matrix×matrix and matrix×vector products,
  `translate`, `determinant`, `invert`, `equals`, `==`, `!=` and
  `isIdentity(eps)`. Entries are mathematical reals (`real`), so the
  algebraic laws hold exactly.
- `RepoBSONFactory`: the `make*Node` constructors for transformation, mesh,
  material, metadata, texture, reference and revision nodes. Nodes are
  immutable values: a closed set of variants (`Nodes.Body`) sharing unique
  and shared IDs, a name and parent IDs. The model covers primitive
  inference from face arity, filtering of UV channels, parent-list
  pass-through, file extensions of texture names and the field-for-field
  round trips.

The implementations of `RepoMatrix` (`repo_matrix.cpp`) and
`RepoBSONFactory` (`repo_bson_factory.cpp`) are not part of this model.
It models the behaviour their unit tests pin down,
`test/src/unit/repo/lib/ut_repo_matrix.cpp` and
`test/src/unit/repo/core/model/bson/ut_repo_bson_factory.cpp`, and the
documented design rules of the factory. Where the tests leave a case open,
the model chooses as follows:

- A flat input that does not hold exactly 16 values gives the identity. So
  does a nested input that is not 4 rows of 4. The tests pin only the
  empty inputs.
- Matrix × vector is the affine action: the point is extended with a
  fourth coordinate 1, and the first three rows give the result.
- `invert` is the adjugate divided by the determinant. It is proved a
  two-sided inverse of every matrix whose determinant is not zero. For a
  singular matrix, which has no defined result, the model returns the
  unscaled adjugate.
- The primitive of a mesh with faces is TRIANGLES when every face has 3
  indices and LINES when every face has 2. Every other case is UNKNOWN.
  That includes faces of mixed arities, for which the tests fix no
  outcome: the model chooses UNKNOWN there, as `Geometry.CommonArity`'s
  contract and `BsonFactory.MakeMeshNode`'s contract together imply. A
  mesh built with no faces stores no primitive, so the getter reports
  TRIANGLES.
- A UV channel is kept when it is non-empty and has one coordinate per
  vertex. Other channels are dropped silently.
- Normals that are present but not one per vertex are reported as an
  error, and no node is built.
- Metadata with unequal key and value counts, or with a repeated key, is
  reported as an error, and no node is built.
- IDs that the factory would mint are inputs (`Nodes.Ids`). The generator
  promises only that they are non-default (`Nodes.Minted`).

Modules: `Wrappers` (Option, Result), `Vectors` (RepoVector2D/3D,
RepoBounds), `Matrix4` (RepoMatrix), `Cofactor` (the polynomial
identities behind the cofactor expansion of a 4×4 determinant), `Inverse`
(the adjugate laws and `invert`), `Nodes` (IDs, node kinds, getters),
`Geometry` (primitive inference, UV channels) and `BsonFactory` (the
`make*Node` functions).

## Model

| member | source | states |
|---|---|---|
| Matrix4.Identity | test/src/unit/repo/lib/ut_repo_matrix.cpp:32-39 | the identity's entry (r, c) is 1 on the diagonal and 0 elsewhere |
| Matrix4.FromFlat | test/src/unit/repo/lib/ut_repo_matrix.cpp:135-159 | 16 flat values become entry (r, c) = values[4r + c]; any other length, the empty one included, gives the identity |
| Matrix4.FromNested | test/src/unit/repo/lib/ut_repo_matrix.cpp:135-159 | 4 rows of 4 become entry (r, c) = rows[r][c]; any other shape, the empty one included, gives the identity |
| Matrix4.FlattenFourByFour | test/src/unit/repo/lib/ut_repo_matrix.cpp:147-158 | laying 4 rows of 4 end to end puts entry (r, c) at index 4r + c |
| Matrix4.FromRaw | test/src/unit/repo/lib/ut_repo_matrix.cpp:61-92 | a raw buffer is read row-major (entry (r, c) = values[4r + c]) or, with the flag off, column-major (values[4c + r]) |
| Matrix4.Transpose | test/src/unit/repo/lib/ut_repo_matrix.cpp:238-251 | entry (r, c) of the transpose is entry (c, r) of the matrix |
| Matrix4.Translate | test/src/unit/repo/lib/ut_repo_matrix.cpp:391-399 | the translation is the identity with the vector in the last column |
| Matrix4.Mul | test/src/unit/repo/lib/ut_repo_matrix.cpp:276-306 | entry (r, c) of a × b is row r of a against column c of b; its laws are the rows MulIdentityLeft to ApplyProduct and MulAdjugate |
| Matrix4.Apply | test/src/unit/repo/lib/ut_repo_matrix.cpp:253-274 | the origin is carried to the last column (the translation part); with ApplyIdentity, TranslateMovesPoint and ApplyProduct it is the affine action |
| Matrix4.Determinant | test/src/unit/repo/lib/ut_repo_matrix.cpp:95-106 | for a matrix whose last row is (0, 0, 0, 1) the 4×4 determinant reduces to the 3×3 determinant of the top-left block; Inverse.RowAgainstAdjugate gives its general cofactor expansion |
| Matrix4.Equals | test/src/unit/repo/lib/ut_repo_matrix.cpp:110-133 | equals(eps) holds exactly when every entry of a lies in the closed interval [b[i] - eps, b[i] + eps] |
| Matrix4.IsIdentity | test/src/unit/repo/lib/ut_repo_matrix.cpp:181-211 | isIdentity(eps) holds exactly when every entry (r, c) lies in the closed interval of radius eps around the identity's entry |
| Matrix4.Same | test/src/unit/repo/lib/ut_repo_matrix.cpp:308-331 | == holds exactly when the data are equal |
| Matrix4.Differ | test/src/unit/repo/lib/ut_repo_matrix.cpp:333-356 | != holds exactly when the data differ, the negation of == |
| Matrix4.Shift | test/src/unit/repo/lib/ut_repo_matrix.cpp:193-204 | test fixture, not a program operation: every entry moves by the same amount d, as the perturbed matrices of the isIdentity test do |
| Matrix4.EmptyInputIsIdentity | test/src/unit/repo/lib/ut_repo_matrix.cpp:41-49 | the empty flat and empty nested inputs give the identity |
| Matrix4.NestedMatchesFlat | test/src/unit/repo/lib/ut_repo_matrix.cpp:147-158 | 4 rows of 4 give the same matrix as their row-major flattening given flat |
| Matrix4.TransposeMovesEntry | test/src/unit/repo/lib/ut_repo_matrix.cpp:243-249 | transposing moves the entry at index i to index (i % 4)·4 + i / 4 |
| Matrix4.TransposeInvolutive | test/src/unit/repo/lib/ut_repo_matrix.cpp:238-251 | transposing twice gives the matrix back |
| Matrix4.TransposeIdentity | test/src/unit/repo/lib/ut_repo_matrix.cpp:240 | the transpose of the identity is the identity |
| Matrix4.ColumnMajorIsTranspose | test/src/unit/repo/lib/ut_repo_matrix.cpp:91-92 | reading a buffer column-major gives the transpose of reading it row-major |
| Matrix4.MulIdentityLeft | test/src/unit/repo/lib/ut_repo_matrix.cpp:276-295 | identity × M = M |
| Matrix4.MulIdentityRight | test/src/unit/repo/lib/ut_repo_matrix.cpp:296 | M × identity = M |
| Matrix4.TransposeOfProduct | test/src/unit/repo/lib/ut_repo_matrix.cpp:238-306 | the transpose of a × b is transpose(b) × transpose(a) |
| Matrix4.ApplyIdentity | test/src/unit/repo/lib/ut_repo_matrix.cpp:255-261 | identity × v = v in every component |
| Matrix4.TranslateMovesPoint | test/src/unit/repo/lib/ut_repo_matrix.cpp:391-399 | translate(a) × b = a + b |
| Matrix4.TranslationsCompose | test/src/unit/repo/lib/ut_repo_matrix.cpp:391-399 | translate(a) × translate(b) = translate(a + b) |
| Matrix4.ApplyProduct | test/src/unit/repo/lib/ut_repo_matrix.cpp:253-306 | (a × b) × v = a × (b × v) when b's last row is (0, 0, 0, 1) |
| Matrix4.DeterminantOfIdentity | test/src/unit/repo/lib/ut_repo_matrix.cpp:95-98 | the determinant of the identity is 1 |
| Matrix4.DeterminantOfSample | test/src/unit/repo/lib/ut_repo_matrix.cpp:99-106 | the determinant of the sample matrix is 6.5275 |
| Matrix4.DeterminantOfTranslation | test/src/unit/repo/lib/ut_repo_matrix.cpp:391-399 | every translation has determinant 1 |
| Inverse.RowAgainstAdjugate | test/src/unit/repo/lib/ut_repo_matrix.cpp:95-106 | cofactor (Laplace) expansion: row r of m against column c of its adjugate is the determinant when r = c and 0 otherwise |
| Inverse.AdjugateAgainstColumn | test/src/unit/repo/lib/ut_repo_matrix.cpp:95-106 | the mirror expansion: row r of the adjugate against column c of m is the determinant when r = c and 0 otherwise |
| Inverse.MulAdjugate | test/src/unit/repo/lib/ut_repo_matrix.cpp:161-178 | m × adjugate(m) = determinant(m) · identity, for every m |
| Inverse.AdjugateMul | test/src/unit/repo/lib/ut_repo_matrix.cpp:161-178 | adjugate(m) × m = determinant(m) · identity, for every m |
| Inverse.Invert | test/src/unit/repo/lib/ut_repo_matrix.cpp:161-178 | for every m with a non-zero determinant, m × invert(m) and invert(m) × m are both the identity; a singular m gives its adjugate, whose products with m are all zero |
| Inverse.InvertIdentity | test/src/unit/repo/lib/ut_repo_matrix.cpp:161-164 | the inverse of the identity is the identity |
| Inverse.InvertTranslation | test/src/unit/repo/lib/ut_repo_matrix.cpp:391-399 | for every v, the inverse of translate(v) is translate(-v) |
| Inverse.InvertSample | test/src/unit/repo/lib/ut_repo_matrix.cpp:165-178 | invert of the sample matrix is its exact inverse over the reals (200/373, -60/373, ...); the test's expected values are what float arithmetic on the float-rounded entries gives, not roundings of these exact values (740454/373 rounds to 1985.13134765625, the test expects 1985.1314697265625) |
| Matrix4.SampleInverseIsInverse | test/src/unit/repo/lib/ut_repo_matrix.cpp:165-178 | that exact inverse times the sample, on either side, is the identity |
| Matrix4.EqualsExactly | test/src/unit/repo/lib/ut_repo_matrix.cpp:110-133 | equals with tolerance 0 holds exactly when the data are equal |
| Matrix4.EqualsReflexive | test/src/unit/repo/lib/ut_repo_matrix.cpp:114-126 | every matrix equals itself, at any non-negative tolerance |
| Matrix4.EqualsSymmetric | test/src/unit/repo/lib/ut_repo_matrix.cpp:114-131 | a equals b exactly when b equals a |
| Matrix4.IsIdentityIsEqualsIdentity | test/src/unit/repo/lib/ut_repo_matrix.cpp:181-191 | isIdentity(eps) holds exactly when the matrix equals the identity within eps |
| Matrix4.ShiftedIdentity | test/src/unit/repo/lib/ut_repo_matrix.cpp:193-211 | the identity with every entry moved by d passes isIdentity(eps) exactly when abs(d) ≤ eps, so the bound is inclusive |
| Matrix4.OneEntryOff | test/src/unit/repo/lib/ut_repo_matrix.cpp:208-209 | one entry more than eps from the identity's makes isIdentity(eps) fail |
| Nodes.TypeOf | test/src/unit/repo/core/model/bson/ut_repo_bson_factory.cpp:49-52 | the node type is the kind of the node's body, one type per kind |
| Nodes.GetPrimitive | test/src/unit/repo/core/model/bson/ut_repo_bson_factory.cpp:185-186 | the stored primitive, or TRIANGLES when none was stored |
| Nodes.NumUVChannels | test/src/unit/repo/core/model/bson/ut_repo_bson_factory.cpp:205-215 | the count is 0 exactly when the mesh has no UV channels |
| Geometry.CommonArity | test/src/unit/repo/core/model/bson/ut_repo_bson_factory.cpp:122-200 | gives k exactly when there are faces and every face has k indices |
| Geometry.KeptChannels | test/src/unit/repo/core/model/bson/ut_repo_bson_factory.cpp:202-215 | the kept channels are those that are non-empty and one per vertex; no channel is added |
| Geometry.InferPrimitive | test/src/unit/repo/core/model/bson/ut_repo_bson_factory.cpp:122-200 | no faces give UNKNOWN; faces that all have k indices give TRIANGLES exactly when k = 3, LINES exactly when k = 2 and UNKNOWN otherwise; mixed arities are outside this contract |
| Geometry.TrianglesFromTriples | test/src/unit/repo/core/model/bson/ut_repo_bson_factory.cpp:122-153 | faces that all have 3 indices give TRIANGLES |
| Geometry.LinesFromPairs | test/src/unit/repo/core/model/bson/ut_repo_bson_factory.cpp:158-169 | faces that all have 2 indices give LINES |
| Geometry.UnknownFromEmptyFaces | test/src/unit/repo/core/model/bson/ut_repo_bson_factory.cpp:188-200 | faces that are all empty give UNKNOWN |
| Geometry.InferredOnlyFromUniformArity | test/src/unit/repo/core/model/bson/ut_repo_bson_factory.cpp:122-200 | for faces of one arity, TRIANGLES (LINES) is inferred exactly when there are faces and each has 3 (2) indices |
| Geometry.KeptChannelsAppend | test/src/unit/repo/core/model/bson/ut_repo_bson_factory.cpp:202-215 | filtering a concatenation is the concatenation of the filtered parts, so the kept channels keep their order and multiplicity |
| Geometry.KeptChannelsSingleton | test/src/unit/repo/core/model/bson/ut_repo_bson_factory.cpp:202-215 | a single channel is kept alone when it is non-empty and one per vertex, and dropped otherwise |
| Geometry.KeptChannelsAllValid | test/src/unit/repo/core/model/bson/ut_repo_bson_factory.cpp:145-151 | channels that all have one coordinate per vertex are kept unchanged |
| Geometry.KeptChannelsAllEmpty | test/src/unit/repo/core/model/bson/ut_repo_bson_factory.cpp:202-215 | channels that are all empty are all dropped |
| Geometry.EmptyChannelLists | test/src/unit/repo/core/model/bson/ut_repo_bson_factory.cpp:205-215 | `{}`, `{{}}` and `{{},{}}` all give zero channels |
| BsonFactory.MakeMaterialNode | test/src/unit/repo/core/model/bson/ut_repo_bson_factory.cpp:37-70 | a MATERIAL node with the given name and struct, non-default unique and shared IDs, no parents |
| BsonFactory.Zip | test/src/unit/repo/core/model/bson/ut_repo_bson_factory.cpp:89-105 | the map's keys are the given keys, each mapped to the value at its position |
| BsonFactory.FirstDuplicate | test/src/unit/repo/core/model/bson/ut_repo_bson_factory.cpp:74-84 | nothing exactly when the keys are distinct; otherwise a key that occurs at two positions |
| BsonFactory.MakeMetaDataNode | test/src/unit/repo/core/model/bson/ut_repo_bson_factory.cpp:72-106 | a METADATA node with the given name, mapping keys[i] to values[i]; an error exactly when the counts differ or a key repeats |
| BsonFactory.MakeMeshNode | test/src/unit/repo/core/model/bson/ut_repo_bson_factory.cpp:140-215 | vertices, normals, faces and bounding box kept; kept UV channels; primitive inferred from the faces, TRIANGLES with none; an error exactly when normals are present but not one per vertex |
| BsonFactory.TriangleMeshRoundTrip | test/src/unit/repo/core/model/bson/ut_repo_bson_factory.cpp:140-156 | a triangle mesh keeps its full UV channels, reports TRIANGLES and has non-default IDs |
| BsonFactory.RebuildWithLines | test/src/unit/repo/core/model/bson/ut_repo_bson_factory.cpp:158-183 | rebuilding with 2-index faces changes only the faces and the primitive, which becomes LINES |
| BsonFactory.EmptyFacesAndChannels | test/src/unit/repo/core/model/bson/ut_repo_bson_factory.cpp:188-215 | all-empty faces give UNKNOWN, and `{}`, `{{}}` or `{{},{}}` give zero UV channels |
| BsonFactory.MakeTransformationNode | test/src/unit/repo/core/model/bson/ut_repo_bson_factory.cpp:295-335 | a TRANSFORMATION node with the given name, the parents as a multiset, and the matrix from the rows (identity unless 4 by 4) |
| BsonFactory.DefaultTransformation | test/src/unit/repo/core/model/bson/ut_repo_bson_factory.cpp:297-306 | with no matrix and no parents, the matrix is the identity and there are no parents |
| BsonFactory.TransformationHoldsFlattening | test/src/unit/repo/core/model/bson/ut_repo_bson_factory.cpp:308-328 | built from 4 rows of 4, the data is their row-major flattening |
| BsonFactory.LastDot | test/src/unit/repo/core/model/bson/ut_repo_bson_factory.cpp:274-292 | the position of a '.' with no '.' after it, or nothing exactly when the name has no '.' |
| BsonFactory.Extension | test/src/unit/repo/core/model/bson/ut_repo_bson_factory.cpp:274-292 | the extension is the suffix after a '.' and holds no '.'; it is empty when the name has no '.' |
| BsonFactory.MakeTextureNode | test/src/unit/repo/core/model/bson/ut_repo_bson_factory.cpp:272-293 | a TEXTURE node keeping name, width, height and bytes, with the extension of the name |
| BsonFactory.ExtensionOfJpg | test/src/unit/repo/core/model/bson/ut_repo_bson_factory.cpp:274-286 | the extension of "textureNode.jpg" is "jpg" |
| BsonFactory.NoExtensionName | test/src/unit/repo/core/model/bson/ut_repo_bson_factory.cpp:291-292 | "noExtensionName" gives a texture node with an empty extension |
| BsonFactory.MakeReferenceNode | test/src/unit/repo/core/model/bson/ut_repo_bson_factory.cpp:219-237 | a REFERENCE node keeping database, project, revision and name; it pins the specific revision exactly when isUnique |
| BsonFactory.MakeRevisionNode | test/src/unit/repo/core/model/bson/ut_repo_bson_factory.cpp:239-264 | shared ID = branch, unique ID = revision; author, message, tag and offset kept; parents as a multiset; same number of files |
| BsonFactory.NoSynthesisedParents | test/src/unit/repo/core/model/bson/ut_repo_bson_factory.cpp:266-269 | empty parent lists give revision and transformation nodes with zero parents |

## Left out

- Inverse.Invert: for a singular matrix the model returns the unscaled adjugate. The source promises no result there.
- Rotation matrices (`rotationX/Y/Z`) are left out, because they need trigonometry and are checked only up to a float tolerance.
- `toString` is left out, because it is float-to-text formatting.
- Float and double precision, and conversion between them, are not modelled: entries are reals. The exact float expected values of the matMat, matVec, invert and determinant tests are rounding artefacts and are not stated. The raw-buffer constructors of both precisions are one function (`Matrix4.FromRaw`).
- BsonFactory.MakeRevisionNode: states only the number of file names, because stored names are normalised for the store. The model stores the names as given.
- `makeRepoBundleAssets` and its document-size ceiling are left out, because they depend on the BSON wire encoding.
- UUID generation is left out: it is random and global. Minted IDs are inputs, and only their being non-default is assumed of them.
- Mixed face arities: no test builds them, so the UNKNOWN the model gives there is a choice of the model, not a modelled promise; `Geometry.InferPrimitive`'s own contract leaves them open.
- Serialisation of nodes to BSON documents and the getters' decoding are left out. Nodes are Dafny values and the getters are field accesses.
- `AbstractModelExport` is left out, because it only stores a database-handler pointer and its constructor arguments.
- `IfcUtils::CreateSerialiser` is left out, because it is a factory over the foreign IFC importer.
- The texture node's `isEmpty` is not modelled.
- The mesh node's name is not modelled: the mesh factory here takes no name, and the model stores the empty string.
