/**
 * The data path of the backend's `align_meshes`. Both meshes are reshaped into vertex
 * and triangle rows. A registration library moves B onto A. The result carries B's moved
 * vertices and normals, B's original index list, and the transformation.
 *
 * The registration itself is an input: `None` stands for the library raising.
 */
module Alignment {
  import opened Wrappers
  import opened Meshes

  /** What the registration returns for B: its moved vertices and normals, and the 4x4 transformation. */
  datatype Registration = Registration(vertices: seq<real>, normals: seq<real>, transformation: seq<seq<real>>)

  /** The aligned mesh dictionary; the client stores it as B's mesh data. */
  datatype Aligned = Aligned(mesh: MeshData, transformation: seq<seq<real>>)

  /** The start of every error message of this operation; the exception text after it is not modelled. */
  const AlignmentErrorPrefix: string := "Alignment error: "

  /** A mesh reshapes into x, y, z rows and triangle rows. */
  predicate Reshapes(m: MeshData) {
    |m.vertices| % 3 == 0 && |m.indices| % 3 == 0
  }

  /**
   * `align_meshes`: an error when either mesh fails to reshape or the registration raises.
   * Otherwise B's index list passes through untouched, with the registration's vertices,
   * normals and transformation.
   */
  function AlignMeshes(a: MeshData, b: MeshData, registration: Option<Registration>): (r: Result<Aligned, string>)
    ensures r.Success? <==> Reshapes(a) && Reshapes(b) && registration.Some?
    ensures r.Failure? ==> r.error == AlignmentErrorPrefix
    ensures r.Success? ==> && r.value.mesh.indices == b.indices
                           && r.value.mesh.vertices == registration.value.vertices
                           && r.value.mesh.normals == registration.value.normals
                           && r.value.transformation == registration.value.transformation
  {
    if !Reshapes(a) || !Reshapes(b) then Failure(AlignmentErrorPrefix)
    else
      match registration
      case None => Failure(AlignmentErrorPrefix)
      case Some(reg) => Success(Aligned(MeshData(reg.vertices, reg.normals, b.indices), reg.transformation))
  }
}
