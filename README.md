# Urban gentrification simulator: the agents of the housing market

This project models the housing market at the heart of the urban gentrification simulator,
the agents of `src/model_elements`:

- **Apartments** (`apartment.py`): housing units with a price, bills, a rent, a freshness (their
  condition), time counters, a tenant and an owner.
- **Cells** (`cell_agent.py`): grid cells that hold apartments and two listings, the units
  offered for rent and the units offered for sale. Each month a cell's bills drift and its
  apartments age.
- **The government developer** (`gov_developer.py`): on its build month it builds a batch of
  100 units in one cell when more than 5% of the residents own no home. It keeps unsold units
  presentable and hands them over to buyers.
- **Landlords** (`landlord_agent.py`):
  - buy the unit of least ROI (months of asking rent that pay back the buying cost) among the
    units for sale in sampled cells;
  - manage their units month by month: collect rent, pay the bills of vacant units, raise or
    cut rents, and renovate run-down units;
  - let units to residents and take them back.
- **Residents** (`resident_agent.py`):
  - score the affordability of the units listed around them;
  - keep a happiness value;
  - each month, following a decision tree, stay, search for a unit to rent or buy, leave a
    rental that became too dear, or give up a home owned for more than five years.

Every random draw of the source (`random.random`, `random.uniform`, `np.random.normal`,
`random.choice`, `random.sample`) is a parameter of the operation that consumes it. For a loop,
that parameter is a function indexed by the loop position. `np.random.normal(loc, scale)` is
given as the standard normal value `z` behind it.

Where the source updates an object in place, the model uses a class:

- the `Apartment`, `Cell`, `GovDeveloper`, `LandlordAgent` and `ResidentAgent` fields are
  fields of Dafny classes;
- Python lists become `seq` fields that the methods reassign;
- owners and tenants are `object?` references, dispatched with `is`, as the source
  dispatches by duck typing.

The simulation-wide state the agents share becomes the class `Markets.Market`:

- the cell at each grid position;
- the set of all cells;
- the number of residents;
- the recent rent and sale prices, whose mean is the rent index.

Pure rules live in pure modules:

- `RentalRules`: ROI, full buying cost, asking rent, one month of management of a unit as a
  value, and the cash it brings.
- `Happiness`: affordability, happiness, the choice between the best rental and the best
  purchase, and the monthly decision tree.

The methods are proved against these.

The residents' searches are specified by a reference function. `Happiness.ScanTo`/`FirstBest`
is the result of scanning a grid of scores row by row, where the grid holds what a search sees
of the listings of its cells. It is proved to be the first unit of greatest score
(`ScanToIsBest`, `FirstBestIsFirstBest`), and that result is proved unique (`FirstBestUnique`).
The search loops are proved to compute it.

The constants of `model_elements/constants.py` are abstract. `constants.py` is not part of this
model, so each constant is known only to be positive.

## Model

| member | source | states |
|---|---|---|
| Draws.Uniform | src/model_elements/apartment.py:10 | `random.uniform(lo, hi)` from a draw in [0, 1) lies in [lo, hi], and strictly below `hi` when the interval is not empty |
| Apartments.Apartment.constructor | src/model_elements/apartment.py:6-24 | position, price, bills, owner, rent and occupancy as given; no tenant; both counters 0; not deleted; initial freshness in [0.95, 1.0] |
| Apartments.Apartment.UpdateFreshness | src/model_elements/apartment.py:35-36 | the new freshness is the old one decayed by the rate (`Decayed`) |
| Apartments.Apartment.ResetFreshness | src/model_elements/apartment.py:38-39 | the new freshness is a renovation value, which lies in [0.85, 1.0] (`Renovated`) |
| Apartments.Apartment.FullCost | src/model_elements/apartment.py:41-42 | a tenant's monthly cost is the rent plus the bills; it reads nothing else of the unit |
| Apartments.Decayed | src/model_elements/apartment.py:35-36 | a decay rate in [0, 1] keeps a non-negative freshness between 0 and its old value; rate 1 leaves it unchanged |
| Apartments.Renovated | src/model_elements/apartment.py:39 | a renovated freshness lies in [0.85, 1.0] |
| Cells.Cell.constructor | src/model_elements/cell_agent.py:8-22 | position, bills, property value and location factor as given; no apartments; both listings empty; no apartment listed twice |
| Cells.Cell.Step | src/model_elements/cell_agent.py:24-33 | the bills drift by the drawn change (`DriftedBills`); every apartment of the cell then has the cell's new bills; the i-th apartment's freshness is `AgedFreshness` of its old freshness with the i-th draws; listings and apartment list untouched |
| Cells.DriftedBills | src/model_elements/cell_agent.py:25-26 | positive bills stay positive for any change above -1; a zero change leaves them as they are |
| Cells.AgedFreshness | src/model_elements/cell_agent.py:29-33 | a reset draw below 0.1 renovates into [0.85, 1.0]; otherwise the freshness decays by 0.99, staying between 0 and its old value |
| Lists.RemoveFirst | src/model_elements/resident_agent.py:32 | `list.remove` of a present element shortens the list by exactly one |
| Lists.RemoveFirstAt | src/model_elements/gov_developer.py:31-32 | after removal, position k holds the old element k before the first occurrence of x and the old element k+1 from there on |
| Lists.RemoveFirstSplit | src/model_elements/gov_developer.py:31-32 | removal cuts the list at the first occurrence of x: the prefix before it followed by the suffix after it |
| Lists.RemoveFirstCount | src/model_elements/gov_developer.py:31-32 | removal takes exactly one copy of x out of the multiset of elements and nothing else |
| Lists.RemoveFirstDistinct | src/model_elements/gov_developer.py:31-32 | in a list without repetitions, removal keeps it without repetitions, and y remains iff y was there and is not x |
| Markets.Market.RentIndex | src/model_elements/landlord_agent.py:22 | the rent index is the starting rent while no rent is recorded, and it is positive when all recorded rents are |
| Markets.MeanOr | src/model_elements/landlord_agent.py:22 | `np.mean(s) if s else fallback`: the fallback on an empty list, otherwise a value whose product with the length is the sum, positive for positive prices |
| Markets.MeanWithin | src/model_elements/landlord_agent.py:22 | the mean of prices that all lie in [lo, hi] lies in [lo, hi] |
| Markets.SumPositive | src/model_elements/landlord_agent.py:22 | a non-empty sum of positive prices is positive |
| GovDevelopers.GovDeveloper.constructor | src/model_elements/gov_developer.py:10-16 | margin 0.05; capital 1; the drawn build month in [0, 11]; no units in stock |
| GovDevelopers.GovDeveloper.BuildHouse | src/model_elements/gov_developer.py:18-22 | a new unit is appended once to the cell's apartments, the cell's for-sale listing and the stock; it is priced at `BuildPrice`, carries the cell's bills and position, is owned by the developer, vacant and fresh; both lists stay free of repetitions |
| GovDevelopers.GovDeveloper.ManageHouseForSale | src/model_elements/gov_developer.py:24-25 | the unit's freshness becomes `FlooredFreshness` of its old value |
| GovDevelopers.GovDeveloper.SellHouse | src/model_elements/gov_developer.py:30-45 | the unit leaves the stock and its cell's for-sale listing, each only when present (first occurrence); its price is appended to the sale prices; it is left ownerless, vacant, time at market 0; a stock without repetitions no longer holds it |
| GovDevelopers.GovDeveloper.Step | src/model_elements/gov_developer.py:47-57 | every unit in stock gets its freshness floored; a batch is built iff `BuildsNow` holds; a batch is 100 new distinct units, appended in order to the stock, the target cell's apartments and its for-sale listing; each is owned by the developer at the build price, with the cell's bills and position, vacant, tenantless, not deleted, rent 0, counters 0 and freshness in [0.95, 1] |
| GovDevelopers.BuildPrice | src/model_elements/gov_developer.py:19 | with a non-negative margin, the asking price of a new unit is at least the build cost |
| GovDevelopers.FlooredFreshness | src/model_elements/gov_developer.py:25 | `max(f, 0.85)` is at least 0.85 and at least f, and is one of the two |
| GovDevelopers.WithoutHome | src/model_elements/gov_developer.py:52 | the count of residents owning no unit is at most the number of residents, and equals it iff nobody owns a unit |
| GovDevelopers.BuildsNow | src/model_elements/gov_developer.py:51-54 | building implies the build month, a stock under 100 and more than 5% of residents owning no unit; these three together imply building |
| RentalRules.MonthlyRent | src/model_elements/landlord_agent.py:23 | the asking rent is positive for a positive index and a margin above -1, and not below the index for a non-negative margin |
| RentalRules.RenovationCost | src/model_elements/landlord_agent.py:97 | renovating costs something exactly when the freshness is below 1 |
| RentalRules.FullBuyCost | src/model_elements/landlord_agent.py:21 | the full buying cost is the price for a freshness of at least 0.7 and strictly more below it |
| RentalRules.Roi | src/model_elements/landlord_agent.py:20-24 | the ROI, multiplied by the asking rent, gives back the full buying cost |
| RentalRules.Managed | src/model_elements/landlord_agent.py:73-98 | occupied: one more month rented, and any rent change happens on a twelfth month and lands at or above the index; vacant: one more month at market, rent cut by 2.5% from the third month, renovation into [0.85, 1.0] exactly then when freshness is below 0.4; bills and occupancy untouched |
| RentalRules.CashFlow | src/model_elements/landlord_agent.py:74-97 | an occupied unit brings its rent; a vacant unit costs its bills, and strictly more when it is renovated |
| RentalRules.TotalCashAllLet | src/model_elements/landlord_agent.py:170-171 | when every unit is let, a month of management earns exactly the sum of the rents |
| RentalRules.BuysNow | src/model_elements/landlord_agent.py:173 | a purchase is tried iff the capital exceeds the build cost, the draw is below 0.7 and fewer than 5 units wait for tenants |
| Landlords.Holdings | src/model_elements/landlord_agent.py:170-171 | the management view of the owned units, position by position |
| Landlords.LandlordAgent.constructor | src/model_elements/landlord_agent.py:11-18 | margin as given; starting capital and capital are the starting mean scaled by the normal draw; no units, none waiting for a tenant; `Valid` holds |
| Landlords.LandlordAgent.FindBestOffer | src/model_elements/landlord_agent.py:27-42 | the choice is nothing iff no sampled unit for sale is affordable and not the developer's; otherwise such a unit of least ROI, the first scanned among those of least ROI (`IsBestOffer`) |
| Landlords.LandlordAgent.BuyProperty | src/model_elements/landlord_agent.py:26-69 | keeps `Valid` (units held listed once and owned by the landlord). The choice is `IsBestOffer`. No offer: nothing changes. An offer: the unit is appended to its cell's rent listing and no other listing changes. An owned unit: the purchase aborts with capital and stock unchanged. An ownerless unit: it is paid its full buying cost, appended to the stock, owned, renovated to `Renovated` of its draw, priced at the asking rent, counters reset, one more unit waiting. Every other unit is untouched |
| Landlords.LandlordAgent.TakeOver | src/model_elements/landlord_agent.py:58-69 | for an ownerless unit and a valid landlord: the unit is appended to the units held, owned by the landlord, tenantless, renovated to `Renovated` of its draw, priced at the asking rent, counters reset, one more unit waiting, and `Valid` still holds |
| Landlords.LandlordAgent.ManageRentalHouse | src/model_elements/landlord_agent.py:73-98 | the unit becomes `Managed` of its old state and the capital moves by its `CashFlow` |
| Landlords.LandlordAgent.ManageProperties | src/model_elements/landlord_agent.py:170-171 | keeps `Valid`; the k-th owned unit becomes `Managed` of its old state with the k-th draws, and the capital moves by the `TotalCash` of the old units |
| Landlords.LandlordAgent.RentHouse | src/model_elements/landlord_agent.py:100-112 | `listed` iff the unit is on its cell's rent listing. Either way the unit becomes owned by the landlord and occupied. Listed: it leaves the listing, counters reset, its rent is cashed and appended to the rent prices, one unit fewer waits. Unlisted: the warning at line 107 reads an `index` attribute a unit lacks and raises, so nothing else changes |
| Landlords.LandlordAgent.TenantMovedOut | src/model_elements/landlord_agent.py:119-132 | `relisted` iff the unit is not on its cell's rent listing. Either way the unit becomes the landlord's, vacant, tenantless, counters reset, and one more unit waits. Relisted: appended to the listing and priced at the asking rent. Already listed: the warning at line 130 raises, so listing and rent are unchanged |
| Landlords.LandlordAgent.TryPurchase | src/model_elements/landlord_agent.py:173-174 | keeps `Valid`; a purchase is attempted iff `BuysNow`. Without one: no offer, capital, stock and listings unchanged. With one: the offer is `IsBestOffer` on the current state, no offer iff nothing is bought or aborted, and a chosen offer names the unit taken. Only the taken unit's cell gains it on its rent listing. A successful purchase appends the unit to the stock; units already held keep their state unless taken over |
| Landlords.LandlordAgent.Step | src/model_elements/landlord_agent.py:170-174 | keeps `Valid`; the k-th unit held becomes `Managed` with the k-th draws; the purchase gate is `BuysNow` on the capital after management (old capital plus `TotalCash`); without a purchase that is the new capital and the listings are unchanged; a chosen offer names the unit taken, and only its cell gains it on its rent listing |
| Happiness.AffordabilitySign | src/model_elements/resident_agent.py:93 | within a positive budget the affordability score is positive for a cost below the income, zero at it and negative above it |
| Happiness.AffordabilityMonotone | src/model_elements/resident_agent.py:93 | a cheaper unit in at least as good a condition scores at least as high |
| Happiness.Transform | src/model_elements/resident_agent.py:94 | `max(log(t) + 1 if t > 0 else 0, 0)` is never negative, is 0 for t ≤ 0, and is `log(t) + 1` whenever positive |
| Happiness.HappinessOf | src/model_elements/resident_agent.py:87-103 | the happiness is negative iff homeless (then -1); an owner-occupier's is 1; a renter's is the transformed affordability of the rented unit |
| Happiness.UnaffordableRentIsJoyless | src/model_elements/resident_agent.py:93-94 | a renter whose rent and bills reach the budget has happiness exactly 0 |
| Happiness.Prospect | src/model_elements/resident_agent.py:200-201 | the prospective happiness is never negative, and 0 when nothing was found |
| Happiness.Decide | src/model_elements/resident_agent.py:203-210 | buy iff a purchase was found whose prospect is at least the rental's and whose score beats the current happiness; rent iff a rental was found, no purchase beats or ties it, and its score beats the happiness; nothing found means staying |
| Happiness.BuyingWinsTies | src/model_elements/resident_agent.py:203-205 | a purchase is never passed over for a rental promising equal happiness |
| Happiness.BestUpToStep | src/model_elements/resident_agent.py:183-185 | one scan step keeps the best so far the first unit of greatest score |
| Happiness.BestUpToNextRow | src/model_elements/resident_agent.py:165 | finishing a cell's listing is reaching the start of the next cell |
| Happiness.ScanToIsBest | src/model_elements/resident_agent.py:165-198 | wherever the scan stands, it holds the first unit of greatest score among those considered so far, or nothing if none was |
| Happiness.FirstBestIsFirstBest | src/model_elements/resident_agent.py:165-198 | the whole scan yields the first considered unit of greatest score, or nothing when no unit was considered |
| Happiness.ScanSkipsEmptyRow | src/model_elements/resident_agent.py:166-167 | a skipped cell leaves the best so far unchanged |
| Happiness.FirstBestUnique | src/model_elements/resident_agent.py:183-185 | two results that are both the first best of a scan coincide |
| Happiness.StepAction | src/model_elements/resident_agent.py:233-254 | homeless: search iff the income beats 80% of the average rent or of the average mortgage payment, or the draw is below 0.1. Tenant, one month on: search iff unhappy (below the threshold and beaten by the draw) after month 6, or in any case after month 12; otherwise leave-and-search iff the rent and bills exceed 120% of the income, else stay. Owner: leave iff past month 60 |
| Residents.RowAt | src/model_elements/resident_agent.py:174-198 | the j-th unit of a searched cell is seen with its own score, or skipped; nothing is seen in a skipped cell |
| Residents.SightedAt | src/model_elements/resident_agent.py:165-172 | the i-th row of what the search sees is what it sees of the i-th cell's listing |
| Residents.SightedRows | src/model_elements/resident_agent.py:165-172 | row by row, what the search sees is what it sees of each cell's listing |
| Residents.SightedPick | src/model_elements/resident_agent.py:174-198 | the unit a search settles on is a listed unit of a searched cell, and its score is that unit's own score |
| Residents.ConsideredRentalAffordable | src/model_elements/resident_agent.py:178-181 | a rental the rent-or-buy search considers scores at least 0 |
| Residents.ResidentAgent.constructor | src/model_elements/resident_agent.py:10-22 | the housing income is 60% of the income; no home; counters 0; both radii as given; happiness 0 |
| Residents.ResidentAgent.CurrentHome | src/model_elements/resident_agent.py:92-103 | the home counts as rented iff a unit is rented, as owned iff none is rented and one is owned |
| Residents.ResidentAgent.CurrentStatus | src/model_elements/resident_agent.py:233-248 | the resident has no home iff it neither rents nor owns |
| Residents.ResidentAgent.UpdateHappiness | src/model_elements/resident_agent.py:87-103 | the happiness becomes `HappinessOf` the current home |
| Residents.ResidentAgent.GiveUpOwned | src/model_elements/resident_agent.py:29-40 | succeeds iff the owned unit is in its cell's apartments. Success: the unit's first occurrence is removed, the cell stays free of repeated units, and the unit is left ownerless, deleted, vacant, tenantless. Failure: nothing changes |
| Residents.ResidentAgent.LeaveRental | src/model_elements/resident_agent.py:43-52 | the rented unit is left vacant, tenantless, counters 0, owner kept. A landlord owner counts one more unit waiting; a unit not on the rent listing is appended and priced at the asking rent, one already listed keeps listing and rent (the landlord's raise is swallowed). Any other owner's failure is swallowed: rent and listing unchanged |
| Residents.ResidentAgent.Vacate | src/model_elements/resident_agent.py:28-58 | fails, changing nothing, iff the owned home is missing from its cell. Otherwise: no home, counters 0, happiness -1; only the owned home's cell loses it; only a landlord-owned rental's cell relists it, repriced unless already listed. The resident keeps at most one home and every cell stays free of repeated units |
| Residents.ResidentAgent.BuyHome | src/model_elements/resident_agent.py:61-73 | sold iff the developer owns the unit. Then it leaves the developer's stock and its for-sale listing, its price is recorded, and it becomes the resident's owned, occupied home with counters 0. Otherwise nothing changes |
| Residents.ResidentAgent.RentHome | src/model_elements/resident_agent.py:74-83 | NoLandlord iff the owner is not a landlord, and nothing changes. NotListed iff a landlord owns it but it is not on its rent listing: the unit is marked occupied and nothing else changes. Otherwise the landlord cashes the rent and counts one unit fewer waiting; the unit leaves its rent listing, its rent is recorded, and it becomes the resident's rented, occupied home |
| Residents.ResidentAgent.MoveIn | src/model_elements/resident_agent.py:60-85 | stops with NoSeller, NoLandlord or NotListed exactly when the unit's owner cannot sell it, cannot let it, or lets it without listing it; otherwise the resident holds just the new unit (or nothing) and happiness is `HappinessOf` the new home |
| Residents.ResidentAgent.AssignApartment | src/model_elements/resident_agent.py:27-85 | NotInCell iff the owned home is missing from its cell, and then nothing changes. NoSeller/NoLandlord iff the target's owner after vacating cannot sell/let it; NotListed iff a landlord owns it and it is not on the rent listing after vacating; these leave the resident homeless with happiness -1. Otherwise the resident holds exactly the new unit (or none) with counters 0. Always: at most one home, every cell stays free of repeated units. Moving to nowhere only relists the rental |
| Residents.ResidentAgent.ScanRow | src/model_elements/resident_agent.py:174-185 | scanning one cell's listing advances the best so far to `ScanTo` the next cell |
| Residents.ResidentAgent.SurveyCell | src/model_elements/resident_agent.py:165-198 | one cell of the rent-or-buy search advances both bests to `ScanTo` the next cell |
| Residents.ResidentAgent.Survey | src/model_elements/resident_agent.py:165-198 | the best rental and best purchase are `FirstBest` of what the search sees |
| Residents.ResidentAgent.SurveyRentals | src/model_elements/resident_agent.py:118-131 | the best rental is `FirstBest` of what the rent-only search sees |
| Residents.ResidentAgent.ChooseHome | src/model_elements/resident_agent.py:159-208 | the move is `Decide` of the two first bests against the happiness; the unit is the listed unit the move names, and there is a unit iff the move is not to stay |
| Residents.ResidentAgent.ChooseRental | src/model_elements/resident_agent.py:115-133 | rent the first best rental iff its score beats the happiness, else stay; the unit is the listed unit named |
| Residents.ResidentAgent.Relocate | src/model_elements/resident_agent.py:210-213 | a completed move leaves the resident holding exactly the chosen unit with refreshed happiness, and the search radius back at its base; otherwise the radius is kept; the resident keeps at most one home and every cell stays free of repeated units |
| Residents.ResidentAgent.FindAptToRentOrBuy | src/model_elements/resident_agent.py:150-225 | the move is `Decide` of the survey. Staying: home and radius kept, happiness refreshed. Moving: the named listed unit is taken, and the radius returns to base on success; the resident keeps at most one home and every cell stays free of repeated units |
| Residents.ResidentAgent.FindAptToRent | src/model_elements/resident_agent.py:105-148 | rent the first best affordable rental iff it beats the happiness; otherwise the radius widens by one and happiness is refreshed; a completed move returns the radius to base; the resident keeps at most one home and every cell stays free of repeated units |
| Residents.ResidentAgent.MoveOut | src/model_elements/resident_agent.py:241-242 | leaving the rental always succeeds and leaves the resident homeless with happiness -1; the listings still list only known units, whose owners are unchanged; every cell stays free of repeated units |
| Residents.ResidentAgent.MoveOutAndSearch | src/model_elements/resident_agent.py:241-244 | leave the rental, then search from no home; staying leaves the resident homeless with happiness -1; a completed move leaves a home, the base radius and refreshed happiness; the resident keeps at most one home and every cell stays free of repeated units |
| Residents.ResidentAgent.TenantMonth | src/model_elements/resident_agent.py:236-246 | one more month rented. Refresh: stay, with happiness refreshed. Search: the move is `Decide` of the survey. Leave-and-search: moving out succeeds, then the search follows; the resident keeps at most one home and every cell stays free of repeated units |
| Residents.ResidentAgent.OwnerMonth | src/model_elements/resident_agent.py:248-254 | one more month owned, and happiness 1. Past month 60 the home is given up: the resident is left homeless with happiness -1, unless the home is missing from its cell, in which case it is kept; the resident keeps at most one home and every cell stays free of repeated units |
| Residents.ResidentAgent.Step | src/model_elements/resident_agent.py:227-254 | the action is `StepAction` of the resident's status at the start of the month; idle changes nothing; each other action has the effects stated by `TenantMonth`, `OwnerMonth` and `FindAptToRentOrBuy`; the resident keeps at most one home and every cell stays free of repeated units |

## Left out

- Logging, the `__repr__` methods and the commented-out code (the income change in `step`, the owner-occupier happiness boost, the rent adjustments of a vacant unit) are not modelled. None of them changes any state, except the two warnings of `rent_house` and `tenant_moved_out` (landlord_agent.py:107 and 130): their messages read an `index` attribute that a unit does not have, so they raise. `RentHouse` and `TenantMovedOut` model that raise.
- The landlord's liquidation branch (landlord_agent.py:136-168) is guarded by `and False`, so it never runs. It is not modelled.
- Agent scheduling, the model-level counters and the grid itself (`model.py`, `agents.py`) are not part of this model. The shared state the agents read becomes `Markets.Market`. `get_neighborhood` and `random.sample` become sequences of cells passed to the searches, and `random.choice` of the build cell becomes a cell parameter.
- The values of the constants of `constants.py` are not part of this model. Each constant is an arbitrary positive number. `math.log` is an uninterpreted function.
- Random draws are parameters. A draw that the source takes only under short-circuit evaluation is still passed, and is read only where the source reads it.
- Floating point is modelled by exact real arithmetic.
- `developer_agent.py` is not part of this model.
- Cells.Cell.constructor: both listings start as empty lists. The source creates them as sets (cell_agent.py:14-15), but `build_house`, `buy_property` and `tenant_moved_out` call `append` on them and `.remove` them by first occurrence. The model follows that list usage throughout.
- Landlords.LandlordAgent.BuyProperty: the source sets a misspelt attribute `ocupied` (landlord_agent.py:60), so the unit's `occupied` field keeps its old value. The model states exactly that.
- Landlords.LandlordAgent.FindBestOffer: requires a positive asking rent. The source divides by it in `calc_roi`, and with a zero or negative rent index the ROI would be infinite or negative. The same requirement carries over to `BuyProperty`, `TryPurchase` and `Step`.
- Landlords.LandlordAgent.ManageProperties: requires `Valid`, whose first half (the units held are free of repetitions) keeps a unit from being managed twice. `buy_property` never takes the bought unit off `apartments_to_sell` (landlord_agent.py:46-69), so a unit held can be offered again. But a purchase completes only for an ownerless unit: any owner makes `sell_house` raise (landlord_agent.py:52-53). Every unit held is owned by its landlord, the second half of `Valid`, so a purchase never appends a unit already held. The constructor establishes `Valid`, and `BuyProperty`, `TakeOver`, `TryPurchase`, `ManageProperties` and `Step` keep it.
- Landlords.LandlordAgent.Step: the capital after a purchase attempt is stated by `BuyProperty`, not repeated in `Step` or `TryPurchase`.
- Landlords.LandlordAgent.Step: it does not state that the offer is `IsBestOffer`. The offer is judged on the units as management leaves them, a state its contract cannot name; `TryPurchase` states it for that state.
- RentalRules.Managed: for a rent rise it states only that the rise happens on a twelfth month and never below the rent index, not the drawn growth factor itself.
- Residents.ResidentAgent.AssignApartment: what the move does to the units, their owners, the market series and the listings is stated by `GiveUpOwned`, `LeaveRental`, `BuyHome` and `RentHome`, not repeated in its own contract.
- Residents.ResidentAgent.Step: for leave-and-search it does not name the move chosen by the search that follows the move-out (see `MoveOutAndSearch`). The effects on the owner-occupier's unit are stated by `OwnerMonth` and `AssignApartment`.
- Residents.ResidentAgent.MoveOutAndSearch: it does not name the move the search chooses. That move is `Decide` of the listings as the move-out leaves them, and the contract cannot name those: the survey functions read the cells and units in the current heap, which the search itself changes.
- Residents.ResidentAgent.TenantMonth: for leave-and-search it does not name the move chosen after the move-out, for the same reason as `MoveOutAndSearch`.
- Residents.ResidentAgent.FindAptToRentOrBuy: ghost sets bound what a move may touch: the listed units, the resident's homes, and those units' landlords and developers. The source has no such bound.
- The methods of the resident and the landlord that divide by the income require it to be nonzero. In the source, a zero income raises a division error.
- The exceptions that stop the simulation are modelled as outcomes: `list.remove` of a missing home, an owner without `sell_house` or `rent_house`, and the raising warning of `rent_house` on an unlisted unit. An owner without `tenant_moved_out`, and the raising warning of `tenant_moved_out` on an already listed unit, are swallowed by the source's `except`; the model leaves rent and listing unchanged there.
