# Verification of the point-of-sale ledger

A Dafny model of the back end of a small-shop point of sale, and proofs about it.  The centre
is one store: products and their stock, the links that let one pack be broken into units, sales,
the stock movement log, cash sessions, the cash ledger and the ticket sequence.  Its operations
are online sale, offline batch, annulment, manual and automatic disassembly, stock adjustment,
product edits, link changes, opening a session, manual cash movement and arqueo.  The proofs are
about any sequence of these operations, from any intact store.  Four smaller systems stand
beside it: the circuit breaker, the rate limiter, refresh tokens and the price cache, and the two
money printers.

Check everything with `dafny verify dfyconfig.toml` (resource limit 2000000).

## How it is organised

| file | what it holds |
|---|---|
| `Datos.dfy` | the rows of the database |
| `Inventario.dfy`, `Ventas.dfy`, `Caja.dfy` | what each service does, as functions from state to state, and laws of single operations |
| `Corridas.dfy` | runs: any sequence of operations |
| `Integridad.dfy` | the invariant of the tables |
| `Conservacion.dfy`, `Bitacora.dfy` | stock against its log, over runs |
| `LibroDeCaja.dfy`, `Desvio.dfy` | the cash ledger against the sales; the drift percentage |
| `Particion.dfy` | splitting and reordering decrements of a linked product |
| `Sincronizacion.dfy`, `Cortes.dfy` | resending and reordering batches; crashes inside a sale |
| `Concurrencia.dfy`, `DobleAnulacion.dfy` | interleaved terminals; sales annulled twice |
| `Sobreventa.dfy` | when the lines of a sale leave no stock negative, in closed form and line by line |
| `Aceptacion.dfy` | exactly when a sale is accepted, and what it records |
| `Efectos.dfy`, `EfectosDeVenta.dfy` | what each operation answers and changes, in every case |
| `DesdeCero.dfy` | what holds of every store reachable from a new one |
| `Tienda.dfy` | the services as a class that changes its tables, each method proved against its function |
| `CortaCircuitos.dfy`, `LimitadorTasa.dfy`, `TokensRefresh.dfy`, `CachePrecios.dfy`, `FormatoMonto.dfy` | the smaller systems, each with its class or loops |
| `Sumas.dfy`, `Aritmetica.dfy` | sums over sequences and facts about products |

The stock proofs rest on one idea: for ANY weighting of the products, two balances never change
(stock less disassemblies less log; log less adjustments plus live sales).  Weights that respect
the links give conservation; weight one on a single product gives the exact account of that
product.

## Where the code and its comments differ

The model follows the code.

- The locked re-check (`venta_service.go:214-227`) asks for the stock of every online line without
  disassembly, so the disassembly that the pre-flight allows for (`venta_service.go:130-143`) never
  saves an online line: `Aceptacion.AceptaSiSoloSi`.  The branch is reached by synced sales, and by
  an online sale that repeats a product.
- An online sale that repeats a product passes the re-check line by line and can leave negative
  stock: `Concurrencia.RepetidoSobrevende`.  It leaves no stock negative exactly when every stock
  covers what is sold from it and what is opened from it, chains of links aside:
  `Sobreventa.SinNegativosSiSoloSi`; with chains, exactly when the last line of each product would
  pass the pre-flight: `Sobreventa.SinNegativosLineaPorLinea`; without links among the products
  sold, exactly when no product is asked for beyond its stock.
  `Concurrencia.NoSobrevendeSiSoloSi` says when it also disassembles nothing.
- Splitting or reordering decrements of a linked product may open more or fewer parents; exactly
  when it does not: `Particion.ParticionSiSoloSi`, `Particion.OrdenSiSoloSi`.
- The check that a sale is not yet annulled is outside its transaction (`venta_service.go:378-384`),
  so two terminals can annul it twice: `DobleAnulacion.DosTerminales`, with the exact effect over any
  interleaving in `DobleAnulacion.DescuadreExacto`.
- A crash inside a synced sale loses the ticket it drew, so a resent batch is the same apart from
  tickets: `Cortes.EntregaCortada`.
- The price cache answers the stock of the moment it was filled: `CachePrecios.AtrasoExacto`.  The
  supplier's mass update and CSV import write products without invalidating it, so name, price and
  category can lag too; exactly when they do not: `CachePrecios.ConsultaFiel`.
- A refresh reads the clock several times: a used token parsed just before its exp and looked up in
  Redis just after is accepted again: `TokensRefresh.TardeEntra`, `TokensRefresh.UnSoloUsoSiSoloSi`.
- A batch is called idempotent; it is, exactly when its acceptable sales carry an offline_id:
  `Sincronizacion.IdempotenteSiSoloSi`.  There is no threshold on synced conflicts, whatever
  `venta_service.go:83` says.
- `clasificarDesvio` speaks of 1% and 5%, but it is given a rounded percentage, so the real limits
  are 1.005% and 5.005% (less 5 parts in 10^17): `Desvio.ClasificacionExacta`.  With nothing
  expected every drift is normal.
- The half-open state admits any number of calls, not one probe (`circuit_breaker.go:16`):
  `CortaCircuitos.SinLimiteDePruebas`.
- A disassembly writes no movement, so the log explains a product's stock only up to its
  disassemblies: `Conservacion.LibroExacto`.
- Cash movements record the whole payment, change included, and `AnularVenta` does not ask whether
  the session is still open; hence the drift of closed sessions: `LibroDeCaja.DerivaDesdeArqueo`.
- `formatMoney` drops the sign of a negative amount below one peso and writes `-.` before a negative
  whole part of 3, 6, 9... digits: `FormatoMonto.ImpresorasConcuerdanSiSoloSi`.
- A rate-limit window below one second is counted in buckets of sixty seconds but its memory entries
  last less: `LimitadorTasa.EntradaViveSiSoloSi`, `LimitadorTasa.LimiteSiSoloSi`.  A window with a
  fraction of a second is counted in buckets of its whole seconds, and lets three limits through:
  `LimitadorTasa.DobleSiSoloSi`.

## Modelling conventions

- A row's identifier is its position in its table, and ids are never reused.  Amounts are integers
  in one common decimal unit; a percentage is an integer number of hundredths of a percent.
- A database transaction is atomic, with its unique indexes and foreign keys; a failed sale rolls
  back everything except the ticket sequence.
- `desarmes`, with its field `desde`, is a history variable: the source keeps no record of a
  disassembly and no operation reads it.  `historia` and `enVuelo` in the breaker, and `usados`,
  `logins`, `repetidos` and `reloj` in the tokens, are history too.
- A write to Redis that fails may still have been applied; both cases are modelled.

## Model

| member | source | states |
|---|---|---|
| `Inventario.TechoMinimo` | backend/internal/service/inventario_service.go:206-208 | The ceiling division gives the least number of parents whose units cover the deficit |
| `Inventario.PreflightConcuerda` | backend/internal/service/venta_service.go:130-143 | On one line the pre-flight accepts if and only if running the decrement ends with child stock >= 0; when it disassembles, it uses the least sufficient number of parents, leaves 0 <= child < UnidadesPorPadre and never overdraws the parent |
| `Efectos.DescuentoSimple` | backend/internal/service/inventario_service.go:189-219 | A decrement with the stock there, or that the first automatic link cannot make up for, takes exactly the quantity from that product and changes nothing else |
| `Efectos.DescuentoConDesarme` | backend/internal/service/inventario_service.go:206-230 | A deficit that the first link's parent can cover takes the least sufficient k from the parent and brings k units' worth less the quantity into the child, and nothing else |
| `Efectos.DesarmeManualExacto` | backend/internal/service/inventario_service.go:117-156 | When it fails and with which error; otherwise the parents asked for become their units, and nothing is logged |
| `Efectos.AjusteExacto` | backend/internal/service/producto_service.go:270-304 | Missing, inactive or would-be-negative products are refused; otherwise the stock moves by delta and one ajuste_manual row of delta is logged |
| `Efectos.EdicionExacta` | backend/internal/service/producto_service.go:202-266 | A price or activation change leaves stock and every other row alone |
| `Efectos.VinculoNuevo` | backend/internal/service/inventario_service.go:65-103 | When a link is refused and why; otherwise exactly that link is added |
| `Efectos.VinculoActualizado` | backend/internal/repository/producto_repo.go:192-202 | The link keeps its products and takes the units and flag given |
| `Efectos.VinculoEliminado` | backend/internal/repository/producto_repo.go:181-190 | That link goes and the others stay, in order |
| `Particion.TechoPartido` | backend/internal/service/inventario_service.go:206-208 | Opening the parents needed for q units and then those needed for the rest opens as many as for both at once |
| `Particion.RepartoDos` | backend/internal/service/inventario_service.go:206-230 | Two discounts of a covered total move the child and parent stocks as one discount does |
| `Particion.DescontarDos` | backend/internal/service/inventario_service.go:182-231 | The same over the whole product table, with the coverage of the rest preserved |
| `Particion.LeyDeParticion` | backend/internal/service/inventario_service.go:182-231 | Splitting law: any list of positive quantities of a linked product, discounted one after another, leaves every product as one discount of the sum, whenever the parent covers the sum |
| `Particion.PartesBajan` | backend/internal/service/inventario_service.go:216-230 | Along the parts the parent never rises; it keeps its stock if and only if no part opens it, and then the child loses exactly the sum |
| `Particion.ParticionSiSoloSi` | backend/internal/service/inventario_service.go:182-231 | Exactly when the splitting law holds, for every linked product and every list of parts: the parent covers the sum, or no part in turn can be served by opening it |
| `Particion.OrdenCubierto` | backend/internal/service/inventario_service.go:182-231 | Under coverage any permutation of the quantities leaves the same products |
| `Particion.OrdenSiSoloSi` | backend/internal/service/inventario_service.go:206-230 | Exactly when two quantities may be discounted in either order: the parent covers both, or each coming first would open as many parents |
| `Particion.ParticionSinCobertura` | backend/internal/service/inventario_service.go:216-219 | Witness for ParticionSiSoloSi: a store and two parts where the law fails |
| `Particion.OrdenAlteraStock` | backend/internal/service/inventario_service.go:206-219 | Witness for OrdenSiSoloSi: the same two parts the other way round leave other stocks |
| `Inventario.VinculoAuto` | backend/internal/repository/producto_repo.go:163-167 | FindVinculoByHijoIDTx: a link of this child with desarme_auto, or none when there is none |
| `Efectos.VinculoAutoPrimero` | backend/internal/repository/producto_repo.go:163-167 | It is the first such link in key order |
| `Aceptacion.AceptaSiSoloSi` | backend/internal/service/venta_service.go:85-228 | Exactly when a sale is accepted: open session, new offline_id, active products, discounts of at most half a line, sufficient payment, and online the stock of every line as it stands (auto-disassembly never saves an online line); a synced sale needs no stock |
| `Aceptacion.VentaConforme` | backend/internal/service/venta_service.go:103-266 | What an accepted sale records: catalogue prices, subtotals, total equal to gross less discounts, change, the next ticket, and the conflict flag exactly when an item exceeded the stock read (never for an online sale) |
| `EfectosDeVenta.ItemExacto` | backend/internal/service/venta_service.go:119-153 | Exactly which error each item gives, in the order of the checks, and when it passes |
| `EfectosDeVenta.VentaRepetida` | backend/internal/service/venta_service.go:96-101 | A resent offline sale changes nothing and is answered with the sale that has its offline_id |
| `EfectosDeVenta.RespuestaExacta` | backend/internal/service/venta_service.go:85-319 | Which answer every request gets: session, duplicate, first failing item, payment, stock under lock, or accepted |
| `EfectosDeVenta.RespuestasExactas` | backend/internal/service/venta_service.go:449-484 | A batch gets one answer per sale, in order, each as of the store the earlier ones left |
| `EfectosDeVenta.VentaAsienta` | backend/internal/service/venta_service.go:285-315 | An accepted sale writes one movement per item and one cash row per payment, of type venta, with its sign and its reference, and no other row changes |
| `EfectosDeVenta.AnulacionExacta` | backend/internal/service/venta_service.go:377-438 | What annulment refuses; otherwise each product gets its quantity back, one restore_anulacion row per item and one inverse anulacion row per payment are written, and only that sale changes state |
| `EfectosDeVenta.LecturaExacta` | backend/internal/service/venta_service.go:91-177 | The pre-flight lets a sale through to its transaction exactly when session, offline_id, items and payment pass as of then |
| `EfectosDeVenta.ConfirmacionExacta` | backend/internal/service/venta_service.go:208-318 | What committing a stale plan answers and leaves in each case; an offline_id taken meanwhile costs the ticket only |
| `Aceptacion.TotalDeLineas` | backend/internal/service/venta_service.go:149-156 | The accumulated total is the gross of the items less their discounts |
| `Ventas.PrimerError` | backend/internal/service/venta_service.go:118-153 | The pre-flight loop passes if and only if every item passes its own checks |
| `Ventas.PlanAgrega` | backend/internal/service/venta_service.go:149-164 | One iteration of the pre-flight loop: one line, its subtotal, its discount and its conflict are added |
| `Ventas.BuscarOffline` | backend/internal/repository/venta_repo.go:42-46 | FindByOfflineID: a sale with this offline_id, or none when no sale has it |
| `Integridad.FormaDeVenta` | backend/internal/service/venta_service.go:208-318 | A sale either is accepted, with stock, log, ledger, sale and ticket all changed by its plan, or leaves the store as it was |
| `Integridad.PasoGuarda` | backend/internal/service/venta_service.go:85-484 | Every operation keeps: links between existing different products, tickets strictly increasing, each offline_id on one sale, payments covering totals, one open session per point of sale, closing data exactly on closed sessions, no critical session without observations, StockNuevo = StockAnterior + Cantidad |
| `Integridad.CorridaGuarda` | backend/internal/service/caja_service.go:166-192 | The same over every run; in particular no reachable closed session is critico without observations, and its stored drift, percentage and class are those of its amounts |
| `Integridad.AbrirGuarda` | backend/internal/service/caja_service.go:42-53 | Opening keeps at most one open session per point of sale |
| `Integridad.AnularGuarda` | backend/internal/service/venta_service.go:377-438 | Annulment keeps the store intact and never fails on a live sale |
| `DesdeCero.SiempreEnOrden` | backend/internal/service/venta_service.go:85-484 | From a new store, after any run: the tables are intact, the cash ledger agrees with the sales, and every movement recorded its product's real stock |
| `DesdeCero.StockPonderado` | backend/internal/service/inventario_service.go:117-231 | From a new store: weighted stock = opening stock + adjustments - live sales, and = opening stock + movement log, for weights that respect the links |
| `Conservacion.DescontarPesa` | backend/internal/service/inventario_service.go:182-231 | Every branch of the decrement, with or without disassembly, moves the weighted stock by the quantity asked for plus the disassembly, for any weights |
| `Conservacion.PasoPesa` | backend/internal/service/inventario_service.go:117-231 | No operation moves either balance (stock less disassemblies less log; log less adjustments plus live sales), whatever the weights |
| `Conservacion.CorridaPesa` | backend/internal/service/venta_service.go:273-299 | Both balances are constants of every run, whatever the weights and even as links change |
| `Conservacion.CorridaRespeta` | backend/internal/service/inventario_service.go:221-230 | Disassemblies weigh nothing over a run when the weights respect the links then in force |
| `Conservacion.ConservacionPonderada` | backend/internal/service/inventario_service.go:117-231 | Weighted conservation over whole runs: with w(padre) = UnidadesPorPadre * w(hijo), the change of the weighted stock is adjustments less live sales, and also the change of the weighted log |
| `Conservacion.LibroExacto` | backend/internal/service/venta_service.go:273-299 | Each product's change of stock is the sum of its new movements plus exactly its net unlogged disassembled units |
| `Conservacion.AnularDevuelveStock` | backend/internal/service/venta_service.go:386-416 | Annulling a sale gives every product its stock back, except for what the sale disassembled |
| `Bitacora.AnterioresExactos` | backend/internal/service/venta_service.go:273-299 | In every reachable state each movement's StockAnterior is the stock explained by the movements and disassemblies before it |
| `Bitacora.StockDeHoy` | backend/internal/service/venta_service.go:273-299 | Today's stock is the opening stock plus the whole log plus the disassemblies |
| `Bitacora.PasoHistorico` | backend/internal/service/producto_service.go:283-303 | Every operation keeps the log exact, manual adjustments included |
| `Caja.AgruparExacto` | backend/internal/repository/caja_repo.go:72-78 | The GROUP BY rows of a method add up to its sum in the ledger, or to zero when it has no rows |
| `Caja.AbiertaPorPDV` | backend/internal/repository/caja_repo.go:35-39 | An open session of the point of sale, or none when there is none |
| `Efectos.AperturaExacta` | backend/internal/service/caja_service.go:42-63 | The session open at the point of sale is answered as it is; otherwise a new one keeps the float, point of sale and user given |
| `Efectos.MovimientoExacto` | backend/internal/service/caja_service.go:77-99 | Income raises, and an expense lowers, the sum of its session and method by its amount; missing and closed sessions are refused |
| `Efectos.EsperadoPorMetodo` | backend/internal/service/caja_service.go:140-146 | Each method expects its own live sales and manual movements, and the float is cash |
| `Efectos.CierreDeFiel` | backend/internal/service/caja_service.go:158-188 | The closing data are the amounts declared and expected, their drift, its percentage to the bound, and its exact class |
| `Efectos.ArqueoNombrado` | backend/internal/service/caja_service.go:119-192 | A named session closes if and only if it is open and there are observations or the drift is not critical, in linear terms of the amounts; otherwise which error; nothing else changes |
| `Efectos.ArqueoSinNombre` | backend/internal/service/caja_service.go:110-118 | Without a name it is an open session of the user; with none open or no user it fails |
| `LibroDeCaja.CorridaCuadra` | backend/internal/service/venta_service.go:301-315 | In every reachable state, for each session and method, the ledger sum is the payments of the live sales plus the manual movements |
| `LibroDeCaja.AnularCuadra` | backend/internal/service/venta_service.go:418-433 | An annulment takes the sale's payments, method by method, out of the sums |
| `LibroDeCaja.CincoMetodos` | backend/internal/service/caja_service.go:140-147 | The five grouped sums add up to the flat sum of the session's rows |
| `LibroDeCaja.EsperadoTotal` | backend/internal/service/caja_service.go:140-147 | The expected total is MontoInicial + total and change of the live sales + manual income - manual expenses, and equals MontoInicial + the flat ledger sum |
| `LibroDeCaja.EsperadoAlcanzable` | backend/internal/service/caja_service.go:293-306 | The same in every reachable state, where no sale has negative change |
| `LibroDeCaja.CorridaPersiste` | backend/internal/repository/venta_repo.go:52-54 | Over any run no sale is lost or altered except to be annulled, and an annulled one stays annulled |
| `LibroDeCaja.CorridaCerrada` | backend/internal/service/caja_service.go:77-99 | Over any run a closed session keeps all its data, gets no new sale, and only annulments post to it |
| `LibroDeCaja.LeyDeDeriva` | backend/internal/service/venta_service.go:418-433 | In every later state a closed session's recomputed total is the earlier one less the payments of exactly those of its sales annulled since |
| `LibroDeCaja.DerivaDesdeArqueo` | backend/internal/service/caja_service.go:126-192 | The same from the arqueo: the session stays closed, the stored MontoEsperado never changes, and the recomputed total drifts from it by exactly the sales annulled after closing |
| `Desvio.RedondearCota` | backend/internal/service/caja_service.go:161 | Half-away-from-zero rounding moves a quotient by at most one half unit |
| `Desvio.PorcentajeCota` | backend/internal/service/caja_service.go:158-162 | abs(Porcentaje * Esperado - 100 * Desvio) <= (0.005 + 5e-15) * abs(Esperado), through both roundings |
| `Desvio.ClasificacionExacta` | backend/internal/service/caja_service.go:277-291 | Exactly when a drift is normal and when it is not critical, as linear conditions on the amounts |
| `Desvio.ClasificacionMonotona` | backend/internal/service/caja_service.go:277-291 | For a fixed expected total a larger drift never gets a milder class |
| `Desvio.NormalSobreUnoPorCiento` | backend/internal/service/caja_service.go:277-286 | A drift of 1.004% is normal, against the comment's 1% |
| `Corridas.SyncEsCorrida` | backend/internal/service/venta_service.go:449-484 | A batch is a run of one sale after another, so every law of runs holds of it |
| `Sincronizacion.UnaVenta` | backend/internal/service/venta_service.go:91-101 | A synced sale is accepted if and only if its session is open, its items and payment pass and its offline_id is new; otherwise nothing changes |
| `Sincronizacion.DosEntregas` | backend/internal/service/venta_service.go:449-484 | Delivering a prefix of a batch and then another leaves what the longer one leaves |
| `Sincronizacion.EntregasHastaMayor` | backend/internal/service/venta_service.go:449-484 | Any number of cut-short deliveries leaves what the longest leaves |
| `Sincronizacion.EntregaSegura` | backend/internal/service/venta_service.go:440-484 | Crash-safe sync, for cuts between sales: any number of cut-short deliveries and then the whole batch give the same store as the batch once: stock, sales, both ledgers, ticket sequence |
| `Cortes.RegistrarParejas` | backend/internal/service/venta_service.go:85-318 | A synced sale does the same to two stores that differ in their tickets only |
| `Cortes.EntregaCortada` | backend/internal/service/venta_service.go:208-320 | Crash-safe sync with crashes inside a sale too: the final store is that of one delivery apart from tickets, and the sequence is ahead by exactly the tickets lost |
| `Cortes.EntregaIdenticaSiSoloSi` | backend/internal/repository/venta_repo.go:57-62 | The final stores are identical, tickets included, if and only if no crash lost a ticket |
| `Sincronizacion.IdempotenteSiSoloSi` | backend/internal/service/venta_service.go:96-101 | A batch may be sent twice without change if and only if each of its sales has an offline_id or is not acceptable |
| `Sincronizacion.NoResucita` | backend/internal/service/venta_service.go:96-101 | Over any run an annulled offline sale stays as it is and no other sale ever has its offline_id |
| `Sincronizacion.SyncAgregaPrevistos` | backend/internal/service/venta_service.go:449-484 | A batch with distinct ids adds exactly the sales foreseeable from its first state, in order |
| `Sincronizacion.PrevistosPermuta` | backend/internal/service/venta_service.go:449-484 | The foreseen sales do not depend on the order of the batch |
| `Sincronizacion.OrdenIndiferente` | backend/internal/service/venta_service.go:130-146 | Permuting a batch with distinct ids changes neither the accepted sales, nor any session's sum by method, nor the weighted stock |
| `Concurrencia.SinDeficitSiSoloSi` | backend/internal/service/venta_service.go:215-227 | No line runs short when its turn comes if and only if no product is asked for beyond its stock |
| `Concurrencia.NoSobrevendeSiSoloSi` | backend/internal/service/venta_service.go:273-283 | The lines leave all stock >= 0 and disassemble nothing if and only if no product is asked for, in all, beyond its stock |
| `Sobreventa.SinNegativosSiSoloSi` | backend/internal/service/venta_service.go:273-283 | Exactly when the lines leave no stock negative, disassembly included, with repeated products, shared parents and parents sold too: every product's stock covers what is sold of it as it is plus the parents its children need opened; for sales without chains of links |
| `Sobreventa.SinVinculosSiSoloSi` | backend/internal/service/inventario_service.go:194-199 | When nothing sold has an automatic link: if and only if no product is asked for beyond its stock |
| `Sobreventa.VentaEnLineaSiSoloSi` | backend/internal/service/venta_service.go:210-283 | The same for an accepted online sale without chains of links, from its request |
| `Sobreventa.SinNegativosLineaPorLinea` | backend/internal/service/venta_service.go:273-283 | Exactly when the lines of any sale, chains of links included, leave no stock negative: the last line of each product would pass the pre-flight as its turn comes |
| `Sobreventa.VentaEnLineaLineaPorLinea` | backend/internal/service/venta_service.go:210-283 | The same for any accepted online sale |
| `Sobreventa.LineaCubierta` | backend/internal/service/inventario_service.go:189-230 | A line that finds its units leaves the rest of the lines covered if and only if all were |
| `Sobreventa.UnidadesBajan` | backend/internal/service/inventario_service.go:206-230 | No line raises the units of a product, counting those inside its parents |
| `Sobreventa.RepetidoAbre` | backend/internal/service/venta_service.go:214-227 | Witness: two lines of 4 from a stock of 5, with a six-unit parent, pass the re-check, open it and leave 3 |
| `Sobreventa.CadenaDependeDelOrden` | backend/internal/service/inventario_service.go:194-230 | Witness: when a box opens packs and a pack opens units, the same two lines leave negative stock or not according to their order |
| `Concurrencia.RevisionBasta` | backend/internal/service/venta_service.go:214-227 | With pairwise distinct products the locked re-check is enough |
| `Concurrencia.RepetidoSobrevende` | backend/internal/service/venta_service.go:214-227 | With a repeated product it is not: two lines of 4 pass against a stock of 5 and leave -3 |
| `Concurrencia.ConfirmarVentaSeguro` | backend/internal/service/venta_service.go:210-283 | A commit, however stale its plan, is accepted if and only if the current stock covers each line and the offline_id is new, and leaves no negative stock |
| `Concurrencia.NuncaSobrevende` | backend/internal/service/venta_service.go:118-283 | Over any interleaving of stale reads, commits and annulments, with distinct products, no stock goes negative and no disassembly is done |
| `DobleAnulacion.SiempreIntegro` | backend/internal/service/venta_service.go:85-484 | Every interleaving of stale reads, online and synced commits and annulments keeps the tables intact, double annulments and two deliveries of a batch in flight included: each offline_id still owns one sale |
| `DobleAnulacion.DescuadreExacto` | backend/internal/service/venta_service.go:377-438 | Over any interleaving of online and synced sales and annulments the log still explains the stock; the sales are off by exactly the weight of the sales annulled again, and the cash ledger, by session and method, by exactly their payments |
| `DobleAnulacion.DosTerminales` | backend/internal/service/venta_service.go:378-386 | Witness: two terminals annul one sale of 2, the stock goes up by 4 and two inverse rows are posted |
| `Servicios.Tienda.UpdateStockTx` | backend/internal/repository/producto_repo.go:204-214 | Adds the delta to one existing product and touches nothing else; fails when there is none |
| `Servicios.Tienda.DescontarStockTx` | backend/internal/service/inventario_service.go:182-231 | The step-by-step decrement reaches the state of DescontarStock, about which the laws above are proved, or changes nothing on error |
| `Servicios.Tienda.DesarmeManual` | backend/internal/service/inventario_service.go:117-156 | Both rows move, or neither; returns the units generated |
| `Servicios.Tienda.CrearVinculo` | backend/internal/service/inventario_service.go:65-103 | Adds exactly the link, unless it links a product to itself, a product is missing, or the pair is already linked |
| `Servicios.Tienda.ActualizarVinculo` | backend/internal/repository/producto_repo.go:192-202 | Changes units and flag of one link, or reports that there is none |
| `Servicios.Tienda.EliminarVinculo` | backend/internal/repository/producto_repo.go:181-190 | Removes exactly one link, or reports that there is none |
| `Servicios.Tienda.AjustarStock` | backend/internal/service/producto_service.go:270-311 | Adjusts and logs an active product by delta; never below zero; returns the new stock, the old plus delta (Efectos.AjusteExacto) |
| `Servicios.Tienda.ResolverItem` | backend/internal/service/venta_service.go:119-163 | The checks of one item in order, and its line |
| `Servicios.Tienda.ResolverItems` | backend/internal/service/venta_service.go:113-167 | The accumulating loop computes the plan of all the items, or the first error |
| `Servicios.Tienda.RevisarStock` | backend/internal/service/venta_service.go:214-228 | True if and only if every line fits the stock |
| `Servicios.Tienda.DescontarVenta` | backend/internal/service/venta_service.go:272-299 | The loop of decrements and log entries reaches the state of DescontarLineas |
| `Servicios.Tienda.AsentarPagos` | backend/internal/service/venta_service.go:301-315 | Appends one ledger row per payment, in order |
| `Servicios.Tienda.TransaccionVenta` | backend/internal/service/venta_service.go:208-318 | The transaction, with its rollback of everything but the ticket sequence |
| `Servicios.Tienda.RegistrarVenta` | backend/internal/service/venta_service.go:85-373 | The whole sale: new state and answer are those of the specification function (EfectosDeVenta.RespuestaExacta); a duplicate is answered with the sale of its offline_id |
| `Servicios.Tienda.SyncBatch` | backend/internal/service/venta_service.go:449-484 | The loop over the batch: final state and one answer per sale |
| `Servicios.Tienda.AnularVenta` | backend/internal/service/venta_service.go:377-438 | Stock, log, inverse ledger rows and state of the sale, or nothing and the error of the first check that fails |
| `Servicios.Tienda.SumMovimientosByMetodo` | backend/internal/repository/caja_repo.go:67-94 | The map has all five methods, each with its exact ledger sum |
| `Servicios.Tienda.CalcularEsperado` | backend/internal/service/caja_service.go:135-147 | The expected amounts of a session, from the grouped sums |
| `Servicios.Tienda.Abrir` | backend/internal/service/caja_service.go:42-72 | Returns the open session of the point of sale unchanged, or opens one |
| `Servicios.Tienda.RegistrarMovimiento` | backend/internal/service/caja_service.go:77-99 | Appends one row, an expense with its amount negated, to an open session only (Efectos.MovimientoExacto) |
| `Servicios.Tienda.Arqueo` | backend/internal/service/caja_service.go:105-205 | Finds the session, computes drift and class, refuses a silent critical close, closes, and answers the stored class or the first error in order; a named open session closes if and only if there are observations or the drift is not critical (Efectos.ArqueoNombrado) |
| `CortaCircuitos.SiempreRefina` | backend/internal/infra/circuit_breaker.go:91-156 | Under any interleaving of in-flight calls: while closed, failureCount is the failures since the last success or close and is below the threshold; while half-open, all outcomes since entering were successes and number successCount; open turns half-open only OpenTimeout after the latest failure, late ones included |
| `CortaCircuitos.NuevoRefina` | backend/internal/infra/circuit_breaker.go:73-89 | The same from a new breaker, for every schedule |
| `CortaCircuitos.MirarExacto` | backend/internal/infra/circuit_breaker.go:92-101 | An open breaker turns half-open if and only if OpenTimeout has passed since the latest failure, exactly or longer ago |
| `CortaCircuitos.ComenzarExacto` | backend/internal/infra/circuit_breaker.go:105-110 | A call is admitted if and only if the breaker is not open or its timeout has passed |
| `CortaCircuitos.TerminarExacto` | backend/internal/infra/circuit_breaker.go:114-156 | Every outcome is recorded, late ones included, and trips or closes the breaker exactly when the history calls for it |
| `CortaCircuitos.ConfigPorDefecto` | backend/internal/infra/circuit_breaker.go:74-82 | Five failures, two successes and sixty seconds for non-positive settings; others are kept |
| `CortaCircuitos.CotaDeLlamadas` | backend/internal/infra/circuit_breaker.go:92-141 | With sequential callers and an operation that always fails, it is started at most FailureThreshold + floor(T / OpenTimeout) times by time T |
| `CortaCircuitos.CotaAlcanzada` | backend/internal/infra/circuit_breaker.go:92-141 | For every n a schedule attains that bound at T = n * OpenTimeout |
| `CortaCircuitos.IniciadasSonArranques` | backend/internal/infra/circuit_breaker.go:105-123 | Counting starts on the breaker alone is counting the admitted calls of the run of both halves of Execute |
| `CortaCircuitos.CotaDeArranques` | backend/internal/infra/circuit_breaker.go:105-141 | The call bound on runs of the breaker and its history |
| `CortaCircuitos.SinLimiteDePruebas` | backend/internal/infra/circuit_breaker.go:92-112 | A half-open breaker lets any number n of calls through at once |
| `CortaCircuitos.CircuitBreaker.constructor` | backend/internal/infra/circuit_breaker.go:73-89 | Closed, with defaults for non-positive settings |
| `CortaCircuitos.CircuitBreaker.State` | backend/internal/infra/circuit_breaker.go:92-101 | Half-open from an open breaker once OpenTimeout has passed since the latest failure, exactly or longer ago; otherwise the state it was in |
| `CortaCircuitos.CircuitBreaker.Begin` | backend/internal/infra/circuit_breaker.go:105-110 | First half of Execute: refused if and only if open |
| `CortaCircuitos.CircuitBreaker.End` | backend/internal/infra/circuit_breaker.go:114-122 | Second half of Execute: the outcome is recorded and the history stays legal |
| `CortaCircuitos.CircuitBreaker.OnFailure` | backend/internal/infra/circuit_breaker.go:126-141 | Records a failure and trips the breaker as the history protocol says |
| `CortaCircuitos.CircuitBreaker.OnSuccess` | backend/internal/infra/circuit_breaker.go:144-156 | Records a success and closes the breaker as the history protocol says |
| `LimitadorTasa.EntradaViveSiSoloSi` | backend/internal/middleware/rate_limiter.go:29-41 | No memory entry can expire inside its own bucket if and only if the window is at least one second |
| `LimitadorTasa.LimiteSiSoloSi` | backend/internal/middleware/rate_limiter.go:53-81 | For every positive limit: the limit bounds every run and bucket without Redis if and only if the window is at least one second |
| `LimitadorTasa.UnaDeMasPasa` | backend/internal/middleware/rate_limiter.go:53-56 | For every window below a second and every limit a schedule lets one request more than the limit through in one bucket |
| `LimitadorTasa.VentanaCortaNoLimita` | backend/internal/middleware/rate_limiter.go:53-56 | Witness of two requests for a limit of one |
| `LimitadorTasa.CupoConRedis` | backend/internal/middleware/rate_limiter.go:84-119 | From any counters, what is still let through is at most what is left of both limits |
| `LimitadorTasa.PasaSiSoloSi` | backend/internal/middleware/rate_limiter.go:52-119 | Exactly when a request is let through after any run of a process, in each of the three Redis cases, by the requests counted on its key |
| `LimitadorTasa.CuentaExacta` | backend/internal/middleware/rate_limiter.go:29-41 | Every counter is exactly the requests counted on it |
| `LimitadorTasa.ValoresExactos` | backend/internal/middleware/rate_limiter.go:53-65 | Whole seconds of the window, sixty below one second; a fallback limit of 1, 2 or 3 for limits below 4, below 6 and from 6 on |
| `LimitadorTasa.EntradaExacta` | backend/internal/middleware/rate_limiter.go:33-40 | An entry counts through the instant its window ends and starts again after it |
| `LimitadorTasa.CotaConRedis` | backend/internal/middleware/rate_limiter.go:84-119 | Under any pattern of Redis failures one process admits at most limit + memLimit per address and bucket |
| `LimitadorTasa.CotaSinRedis` | backend/internal/middleware/rate_limiter.go:67-81 | Without Redis, at most limit per address and bucket |
| `LimitadorTasa.BucketsContiguos` | backend/internal/middleware/rate_limiter.go:53-56 | An interval one window long touches two buckets, or three when the window has a fraction of a second |
| `LimitadorTasa.CotaPorIntervalo` | backend/internal/middleware/rate_limiter.go:67-81 | Without Redis, in any half-open interval one window long: at most 2 * limit, or 3 * limit when the window has a fraction of a second |
| `LimitadorTasa.TresRafagasPasan` | backend/internal/middleware/rate_limiter.go:67-81 | For every such window and limit a schedule attains 3 * limit |
| `LimitadorTasa.DobleSiSoloSi` | backend/internal/middleware/rate_limiter.go:53-81 | 2 * limit bounds every run and interval if and only if the window is whole seconds, to the nanosecond |
| `LimitadorTasa.Limitador.MemIncrementar` | backend/internal/middleware/rate_limiter.go:29-41 | Counts on a live entry, starts again on a missing or expired one |
| `LimitadorTasa.Limitador.Manejar` | backend/internal/middleware/rate_limiter.go:52-120 | The handler: counters and verdict, for each of the three Redis cases |
| `TokensRefresh.SiempreCoherente` | backend/internal/service/auth_service.go:128-136 | Over every serial run each used refresh token is revoked until its exp at least, and the unused ones number the logins plus the repeated acceptances |
| `TokensRefresh.UnSoloUsoSiSoloSi` | backend/internal/service/auth_service.go:81-157 | With a clock reading of its own at parsing, Exists, Set and issuing: over any serial run no refresh token is accepted twice if and only if no call parsed a used token before its exp and asked for the revocation after it had lapsed; the live tokens outnumber the logins by those calls at most |
| `TokensRefresh.UnSoloUso` | backend/internal/service/auth_service.go:81-157 | When Exists comes before the exp of the tokens parsed before it, as with a single reading: no refresh token is ever accepted twice, and live unrevoked refresh tokens never outnumber the successful logins |
| `TokensRefresh.TardeEntra` | backend/internal/service/auth_service.go:104-113 | Witness: parsed one nanosecond before exp and asked at exp, a used token is accepted again |
| `TokensRefresh.RefreshExacto` | backend/internal/service/auth_service.go:81-157 | Exactly when a refresh is accepted, and what every outcome issues and revokes |
| `TokensRefresh.NuncaUsadoEntra` | backend/internal/service/auth_service.go:103-126 | After any run without lost writes a refresh token not yet exchanged is accepted from an active user until its exp |
| `TokensRefresh.LoginExacto` | backend/internal/service/auth_service.go:56-63 | A login issues one access and one refresh token with their lifetimes, to the second, and revokes nothing |
| `TokensRefresh.LogoutExacto` | backend/internal/service/auth_service.go:246-256 | A live access token stays revoked exactly until its exp, and no other token is touched |
| `TokensRefresh.AuthService.GenerateToken` | backend/internal/service/auth_service.go:274-287 | Appends a token with a fresh jti and exp truncated to seconds |
| `TokensRefresh.AuthService.Verificar` | backend/internal/service/auth_service.go:82-126 | The checks in order; true if and only if all pass |
| `TokensRefresh.AuthService.Canjear` | backend/internal/service/auth_service.go:128-145 | Revokes the old token, and issues the pair only when the write was answered |
| `TokensRefresh.AuthService.Login` | backend/internal/service/auth_service.go:46-79 | Issues one pair; its refresh token was never used |
| `TokensRefresh.AuthService.Refresh` | backend/internal/service/auth_service.go:81-157 | Checks, revokes and then issues; a used token is accepted exactly when the call comes late |
| `TokensRefresh.AuthService.Logout` | backend/internal/service/auth_service.go:246-256 | Revokes a live access token for its remaining life |
| `CachePrecios.CorrerCoherente` | backend/internal/service/producto_service.go:68-79 | Over serial runs of the product service with arbitrary evictions every cached entry tells nombre, precio and categoria of the active product with that barcode |
| `CachePrecios.CorrerDebe` | backend/internal/service/proveedor_service.go:190-220 | Over any run, the supplier service included, an entry differs from its product by exactly the fields written without invalidation since it was filled |
| `CachePrecios.ConsultaFiel` | backend/internal/handler/consulta_precios.go:38-73 | After any run, mass price updates and CSV imports included, a lookup finds a product exactly when the database would; its nombre, precio and categoria are the database's if and only if the fields written silently since the fill were last written with the values it has |
| `CachePrecios.PrecioRancio` | backend/internal/service/proveedor_service.go:197-199 | Witness: a mass update from 120 to 150 leaves lookups answering 120 |
| `CachePrecios.AtrasoExacto` | backend/internal/handler/consulta_precios.go:43-50 | The lag of the cached stock: over any run that neither evicts the entry nor updates or deactivates its product, the entry is unchanged and the stock moves by the sum of its changes, so the cached stock is right if and only if that sum equals the gap at the start |
| `CachePrecios.AtrasoDesdeLlenado` | backend/internal/handler/consulta_precios.go:52-70 | From the lookup that fills the entry: a later lookup answers the stock of then, off by exactly the changes since, and right if and only if they add up to zero |
| `CachePrecios.StockRancio` | backend/internal/handler/consulta_precios.go:59-70 | Witness: a sale of three leaves the entry saying ten |
| `CachePrecios.PorBarcode` | backend/internal/repository/producto_repo.go:74-78 | FindByBarcode: an active product with this code, or none when there is none |
| `CachePrecios.CrearExacto` | backend/internal/service/producto_service.go:117-152 | The row a creation leaves, and that a taken barcode changes nothing |
| `CachePrecios.EscrituraExacta` | backend/internal/service/producto_service.go:202-250 | An update leaves the fields given and evicts that entry; the same write by the supplier service evicts none |
| `CachePrecios.ActivacionExacta` | backend/internal/service/producto_service.go:252-266 | Deactivation clears the flag and evicts; reactivation sets it and evicts none |
| `CachePrecios.ConsultaExacta` | backend/internal/handler/consulta_precios.go:43-70 | The four fields a lookup answers, and what it caches |
| `CachePrecios.ImportacionExacta` | backend/internal/service/proveedor_service.go:535-582 | One CSV row overwrites the active product with its code, creates a new one, or fails on an inactive one |
| `CachePrecios.PreciosMasivos` | backend/internal/service/proveedor_service.go:190-220 | A mass update leaves each product at the last price given for it |
| `CachePrecios.Catalogo.InvalidatePrecioCache` | backend/internal/service/producto_service.go:74-79 | Deletes exactly this entry |
| `CachePrecios.Catalogo.Crear` | backend/internal/service/producto_service.go:117-152 | Adds the product active, unless the barcode is taken; the cache is left alone and stays coherent |
| `CachePrecios.Catalogo.Actualizar` | backend/internal/service/producto_service.go:202-250 | Changes the given fields and invalidates the entry |
| `CachePrecios.Catalogo.Desactivar` | backend/internal/service/producto_service.go:252-262 | Deactivates and invalidates |
| `CachePrecios.Catalogo.Reactivar` | backend/internal/service/producto_service.go:264-266 | Reactivates without touching the cache, which stays coherent |
| `CachePrecios.Catalogo.GetPrecioPorBarcode` | backend/internal/handler/consulta_precios.go:38-73 | The read-through lookup and its fill |
| `CachePrecios.Catalogo.UpdatePreciosTx` | backend/internal/repository/producto_repo.go:216-222 | Writes one price; the entry stays |
| `CachePrecios.Catalogo.ActualizarPreciosMasivo` | backend/internal/service/proveedor_service.go:190-220 | The loop over the supplier's products writes each price and leaves the cache alone |
| `CachePrecios.Catalogo.UpsertProductoDesdeCSV` | backend/internal/service/proveedor_service.go:535-582 | An active product with this code is overwritten without invalidation, or a new one created |
| `FormatoMonto.ImpresorasConcuerdanSiSoloSi` | backend/internal/infra/pdf.go:410-432 | For every decimal in range, exactly when the two printers agree: half-even rounding does not go up, and the amount is non-negative or has at least one peso and a whole part whose digit count is no multiple of three |
| `FormatoMonto.ImpresorasSinPerdida` | backend/internal/infra/factura_html.go:802-828 | For every amount >= 0 below 2^63 with at most two decimals the printers agree, groups after the first have three digits, and reading the text gives the amount back |
| `FormatoMonto.ImpresoSeLee` | backend/internal/infra/pdf.go:422-431 | Deleting the dots and reading the comma as decimal point recovers the cents |
| `FormatoMonto.TextosSeLeen` | backend/internal/infra/pdf.go:410-432 | Both texts in full, signs included: one is the amount truncated to cents, the other rounded |
| `FormatoMonto.BanqueroExacto` | backend/internal/infra/factura_html.go:804 | The rounding is to the nearest cent and, of two as near, the even one |
| `FormatoMonto.PesoDelante` | backend/internal/infra/pdf.go:410-416 | formatMoney is the peso sign and then what formatMoneyAFIP writes |
| `FormatoMonto.GruposDeTres` | backend/internal/infra/pdf.go:425-430 | Every digit group after the first has exactly three characters |
| `FormatoMonto.EscritoEsGrupos` | backend/internal/infra/factura_html.go:812-818 | The left-to-right loop writes the groups of three counted from the right |
| `FormatoMonto.FormatearMoney` | backend/internal/infra/pdf.go:419-432 | The loop computes the first printer's text |
| `FormatoMonto.FormatearDecimalAFIP` | backend/internal/infra/factura_html.go:802-828 | The loop computes the second printer's text for two decimals |

## Left out

- HTTP, routing, request validation, uuid parsing, JSON, logging and audit: plumbing; the properties hold without the validation unless a `requires` says otherwise.
- Invoicing (dispatcher, worker, retry cron, comprobantes, AFIP sidecar, tipo_comprobante and fiscal configuration): most of it lies behind calls whose code is not part of this model.
- Purchases, promotions, categories, price lists, supplier price updates, product search, stock alerts and paginated listings: they leave stock, sales and cash alone; a change of price, whoever makes it, is EditarProducto, and its effect on the price cache is Escribir.
- PDF and HTML rendering, barcodes, mail, the React front end and its offline queue.
- Texts, timestamps and user ids that no property depends on (motivo, descripcion, closed_at, the seller of a sale).
- Machine widths: stock, quantities and DECIMAL columns are unbounded integers here, so overflow and column rounding are not modelled; only the int64 of formatMoney is.
- PostgreSQL and GORM internals: atomicity, row locks, unique indexes and foreign keys are assumed.
- Answers to duplicated sales: only which sale is answered is modelled, not the loaded payload, which comes without items and change.
- Creation of products inside ledger runs: the product table is fixed there, and `DesdeCero.TiendaNueva` starts with any products; price, activation and links do change.
- Interleavings of arqueo, manual disassembly, stock adjustment, refresh and cache fill: their reads are not locked, so their properties are of serial runs; sales, online or synced, and annulments are interleaved.
- Concurrencia.NuncaSobrevende: is of online sales and annulments; synced sales, which are meant to oversell, interleave too in DobleAnulacion.
- Sobreventa.SinNegativosSiSoloSi: leaves out chains, where a product sold by opening a parent has a parent also sold by opening another; there the order of the lines decides, so no condition on stocks and quantities alone does, and Sobreventa.SinNegativosLineaPorLinea gives the one that follows the lines.
- Failures of the best-effort movement log of AjustarStock: its writes are assumed to succeed.
- Caja.AbiertaPorUsuario: picks the first open session of the user in table order where the source picks the smallest uuid; an arqueo that names its session covers every choice.
- Servicios.Tienda.SumMovimientosByMetodo: the SQL GROUP BY is the function Agrupar; the loop over its rows is modelled as it is.
- CortaCircuitos.CotaDeLlamadas: a panic inside the protected operation, which would record no outcome, is not modelled; operations here return or fail.
- LimitadorTasa.Limitador.Manejar: one clock reading per request, where the source reads the clock for the bucket and again for the entry; the Retry-After header is left out.
- LimitadorTasa.CotaConRedis: Redis keeps its counters through their bucket; two limiters that share the prefix share their counters, so only upper bounds are stated.
- TokensRefresh.UnSoloUso: Redis is configured and keeps a key until its TTL; bcrypt and signatures are left out, tokens are unforgeable records with a fresh jti, and refresh of a token without jti is not modelled; process and Redis share one clock.
- CachePrecios.ConsultaFiel: Redis calls succeed; the TTL is covered by arbitrary evictions; how the mass update and the CSV compute their prices and categories is left out.
- FormatoMonto.FormatearDecimalAFIP: only two decimals, the ones both printers share.
