# WaterDemo: plane mesh and mouse look, modelled in Dafny

WaterDemo renders a flat "water" plane under a directional light, seen
through a free-fly camera. Apart from window, shader and GPU set-up, it
holds two pieces of logic, and this project models both.

- **Plane mesh generation** (`generateFlatPlane`): fills the caller's
  vertex buffer with one `(x, 0, z)` triple per point of a centred
  `(divisions + 1) x (divisions + 1)` grid, in row-major order (Z rows
  outside, X columns inside). It then fills the index buffer with six
  indices per grid cell, two triangles per quad. Module `PlaneMesh`
  (`plane_mesh.dfy`).
- **Mouse look** (`mouse_callback` and the globals `lastX`, `lastY`,
  `firstMouse`): turns absolute cursor positions into look offsets. The
  first event reports no movement. Later events report the move since the
  previous event, with y inverted. Module `MouseLook` (`mouse_look.dfy`).

The generator fills `std::vector`s that the caller passes by reference.
It is modelled as a method that takes the buffers' current contents and
returns the extended contents. Its two loop nests are the two methods
`AppendGridVertices` and `AppendGridIndices`, each proved against a
recursive, row-by-row specification (`PlaneVertices`, `PlaneIndices`).
Lemmas then prove the facts the generator guarantees about those specifications: lengths,
index range, the exact six-index pattern per cell, flatness, grid extent
and triangle winding. The mouse globals are a class with three mutable
fields. Its method is specified by a pure transition function `Step`, and
`Replay` runs `Step` over a sequence of events.

## Model

| member | source | states |
|---|---|---|
| `PlaneMesh.GenerateFlatPlane` | WaterDemo/main.cpp:188-215 | The buffers are only appended to: the old contents stay unchanged and are followed by the grid's vertices and then its indices. Exactly `3 * (divisions+1)^2` floats and `6 * divisions^2` indices are added. Every new y slot is 0, and every new index lies in `[0, (divisions+1)^2)`. When the vertex buffer starts empty, as at the only call site (main.cpp:66-68), every new index names one of the new vertices. |
| `PlaneMesh.AppendGridVertices` | WaterDemo/main.cpp:189-201 | The vertex loop nest appends exactly `PlaneVertices(width, depth, divisions, divisions + 1)`: one `(x, 0, z)` triple per grid point, rows outside, columns inside. |
| `PlaneMesh.AppendGridIndices` | WaterDemo/main.cpp:203-214 | The index loop nest appends exactly `PlaneIndices(divisions, divisions)`: the six indices of each cell, cell rows outside, cells of a row inside. |
| `PlaneMesh.RowVerticesLength` | WaterDemo/main.cpp:194-200 | The first `m` points of a row take `3 * m` floats. |
| `PlaneMesh.PlaneVerticesLength` | WaterDemo/main.cpp:191-201 | `m` rows take `3 * m * (n+1)` floats; the whole grid takes `3 * (n+1)^2`, three per vertex of `numVertices`. |
| `PlaneMesh.RowVertexAt` | WaterDemo/main.cpp:194-199 | Point `j` of a row takes the three floats starting at `3 * j`. |
| `PlaneMesh.PlaneVertexAfterRows` | WaterDemo/main.cpp:193-200 | Point `(i, j)` directly follows the `i` complete rows before it. |
| `PlaneMesh.PlaneVertexAt` | WaterDemo/main.cpp:193-200 | Vertex `k = i*(n+1) + j` occupies slots `3k .. 3k+2`, holding `x = -width/2 + j*(width/n)`, `y = 0` and `z = -depth/2 + i*(depth/n)`, over the reals. |
| `PlaneMesh.RowVerticesFlat` | WaterDemo/main.cpp:198 | A row consists of whole triples whose middle slot is 0. |
| `PlaneMesh.PlaneVerticesFlat` | WaterDemo/main.cpp:198 | The vertex buffer consists of whole triples, and every y slot (`3k + 1`) is 0. |
| `PlaneMesh.ColumnXSpan` | WaterDemo/main.cpp:189-195 | Column 0 is at `-width/2` and column `n` at `width/2`. For `width >= 0`, every column lies between them. |
| `PlaneMesh.RowZSpan` | WaterDemo/main.cpp:190-196 | Row 0 is at `-depth/2` and row `n` at `depth/2`. For `depth >= 0`, every row lies between them. |
| `PlaneMesh.RowIndicesLength` | WaterDemo/main.cpp:204-213 | The first `m` cells of a cell row take `6 * m` indices. |
| `PlaneMesh.PlaneIndicesLength` | WaterDemo/main.cpp:203-214 | `m` cell rows take `6 * n * m` indices, so the whole grid takes `6 * n^2`. |
| `PlaneMesh.RowIndicesInRange` | WaterDemo/main.cpp:204-213 | Every index emitted for a cell row above the last grid row lies in `[0, (n+1)^2)`. |
| `PlaneMesh.PlaneIndicesInRange` | WaterDemo/main.cpp:203-214 | Every emitted index lies in `[0, numVertices)` with `numVertices = (n+1)^2`, so it fits the unsigned index type. When the vertex buffer starts empty, as at the only call site main.cpp:66-68, it names one of the emitted vertices. |
| `PlaneMesh.RowCellAt` | WaterDemo/main.cpp:204-213 | Cell `j` of a cell row takes the six indices starting at `6 * j`. |
| `PlaneMesh.PlaneCellAfterRows` | WaterDemo/main.cpp:203-213 | Cell `(i, j)` directly follows the `i` complete cell rows before it. |
| `PlaneMesh.PlaneCellAt` | WaterDemo/main.cpp:203-213 | The six indices at offset `6*(i*n + j)` are `row1+j, row2+j, row1+j+1, row1+j+1, row2+j, row2+j+1`, with `row1 = i*(n+1)` and `row2 = (i+1)*(n+1)`. |
| `PlaneMesh.GridCoordinates` | WaterDemo/main.cpp:193-194 | Vertex number `i*(n+1) + j` is grid point (row `i`, column `j`), which is the numbering the vertex loop produces. |
| `PlaneMesh.CellWinding` | WaterDemo/main.cpp:205-212 | A cell's two triangles share the edge `(row1+j+1, row2+j)` and traverse it in opposite directions. Both have the same non-zero orientation in grid coordinates, so they are consistently wound and non-degenerate. |
| `PlaneMesh.SingleCellPlane` | WaterDemo/main.cpp:188-215 | With one division over a 2 x 2 plane, the vertices are `(-1,0,-1), (1,0,-1), (-1,0,1), (1,0,1)` and the indices are `0, 2, 1, 1, 2, 3`. |
| `MouseLook.Step` | WaterDemo/main.cpp:167-178 | On the first sample the offset is `(0, 0)` whatever the position. Later samples give `(x - lastX, lastY - y)`, with y inverted. Afterwards the previous position is the current one and the first-sample flag is cleared. |
| `MouseLook.Replay` | WaterDemo/main.cpp:167-181 | Over a run of events there is one offset per event. The first offset is `Step`'s (zero on a first sample), and every later offset is `(x_i - x_{i-1}, y_{i-1} - y_i)`, the move since the previous event with y inverted. The final previous position is the last event's, and the flag is cleared once any event has arrived. |
| `MouseLook.ReplayTelescopes` | WaterDemo/main.cpp:169-178 | Over any run of events, the x offsets sum to the last x minus the reference x, and the y offsets sum to the reference y minus the last y. The reference is the stored previous position, or the first event itself on a first sample. |
| `MouseLook.FromStartNoJump` | WaterDemo/main.cpp:169-174 | From the initial globals, the summed offsets equal the move from the first event to the last, so the window-centre start never causes a jump. |
| `MouseLook.MouseState.constructor` | WaterDemo/main.cpp:22-23 | `lastX = 1600/2`, `lastY = 1200/2` and `firstMouse = true`. |
| `MouseLook.MouseState.MouseCallback` | WaterDemo/main.cpp:167-181 | Updates the three globals as `Step` does and returns the offset that `Step` gives. That is `(0, 0)` on the first call and `(x - lastX, lastY - y)` afterwards. `firstMouse` ends false and `lastX`/`lastY` end at the current position. |

## Left out

- Floating point: vertex coordinates and cursor positions are `real`. The
  `float` rounding of `width / divisions`, of `j * stepX` and of the
  `double`-to-`float` casts in `mouse_callback` is not modelled. In `float`,
  the last column need not land exactly on `width / 2`.
- `divisions < 1` and overflow: `ValidDivisions` demands
  `1 <= divisions` and `(divisions + 1)^2 <= 2^31 - 1`. With a negative
  `divisions` both loop nests are empty and nothing is appended. With zero
  divisions `width / divisions` is a float division giving infinity, so the
  single vertex gets NaN coordinates (`0 * inf`), which `real` cannot
  express. Beyond the bound the `int` products overflow.
- The camera call at main.cpp:180 (`camera.ProcessMouseMovement`): the
  `Camera` class is not part of this model. `MouseCallback` returns the
  offsets that the source passes to it.
- `main` (window, GL loader, buffer and shader set-up, the render loop, frame
  timing from `glfwGetTime`), `framebuffer_size_callback`, `processInput` and
  `scroll_callback`: these are calls into GLFW, OpenGL and the camera, not
  logic of this program. Frame timing is not modelled.
- `PlaneMesh.GenerateFlatPlane` returns new sequences and does not mutate
  the caller's vectors. The two buffers have different element types and
  can never alias, so only the in-place storage is lost. Each loop nest's
  three or six `push_back` calls are one append of a three- or
  six-element literal, which gives the same final contents.
- Indices are numbered from 0 and are not offset by the vertices already in
  the buffer (main.cpp:205-212 never adds `vertices.size() / 3`). The model
  keeps this: the new indices name the new vertices only when the vertex
  buffer starts empty, which is the case at the only call site.
- The unused local `numVertices` is not computed. Its value,
  `VertexCount(divisions)`, is the bound in the index-range properties.
