# Kalah engine: board, sowing, evaluation and minimax search

This project models the engine of a Kalah (mancala) game in which a human plays against the
machine. It covers:

- the board of `2 * (P + 1)` pits (`BoardImpl`), with the pits themselves (`Pit`) and the
  players (`Player`);
- sowing, capture and the turn rule of one ply, and the guarded human move;
- the game-over test, the winner and the per-player seed totals;
- the machine's static evaluation `calcScore`;
- the game tree the machine builds to its search level (`constructTree`), the backup of scores
  through it (`Node.updateScore`, `getMaxChild`, `getMinChild`), and the machine's move.

Pits are numbered 1..2(P+1) counter-clockwise. Pits 1..P are the human's, P+1 is the human's
store, P+2..2P+1 are the machine's and 2(P+1) is the machine's store. The board keeps them in a
two-row array. Module `Layout` proves that the array lookup `getPit` is a bijection onto this
numbering, and that the populated array agrees with it. Everything else works on one flat
sequence of seed counts.

Modules follow the program's structure:

- `Players`, `Pits` and `Layout`: the pit numbering and array lookup.
- `Boards`: the immutable board and its queries.
- `Sowing`: one ply and the human move.
- `Evaluation`: `calcScore`.
- `ScoreTree`: the score tree node, one module for both copies of `Node`.
- `GameTree`: the depth-bounded tree builder and the choice at its root.
  - It is generic over a `Rules` record: successors, finished-game test, evaluation.
- `Search`: instantiates `GameTree` with the machine's successors, the game-over test and the
  evaluation, giving `constructTree` and `machineMove`.
  - The search uses the corrected ply (Finding A), the corrected evaluation (Finding B) and
    the unguarded successors (Finding C) below.
  - Only the leaf `clone()` at `BoardImpl.java:200` is kept as written (Finding D), in
    `Search.ConstructTreeAsWritten` and `Search.MachineMoveAsWritten`.

Every operation that mutates in the source (`addSeeds`, `sowSeeds`, `addChild`, `updateScore`)
is a pure function here, returning the new value. `sowSeeds` is also modelled as a method,
`Sowing.SowSeeds`. It runs the source's loop, a raw counter with wrapped indices that extends
its bound at every skipped store. It is proved to compute the recursive definition
`Sowing.Distribute`.

Where the code departs from the game's usual rules, the model follows the code.

- The capture test does not check who owns the landing pit (`BoardImpl.java:155-156`). A
  capture therefore also happens on the opponent's side.
- The evaluation counts a landing pit as often as it is reached, not once per distinct pit
  (`BoardImpl.java:237-251`).
- A seed total of a player includes that player's store. `getSeedsOfPlayer` gives the machine
  row to any player but the human (`BoardImpl.java:461-475`).
- `clone` builds the copy through the private constructor. The copy's source and target of the
  last move are therefore 0 (`BoardImpl.java:481-494`).

`BoardImpl` calls three members that neither `Node` class declares:
- a constructor `(Board, List, double)`, called with `null` children for a leaf at
  `BoardImpl.java:200`;
- a constructor `(Board, double)`, for an inner node at `BoardImpl.java:202`;
- `getMax`, at `BoardImpl.java:195`.

Both classes declare only `(Board, double, int)` and `(Board, List, double, int)`. The two
missing constructors are modelled as the four-argument one with the depth passed along: a leaf
gets no children, and an inner node gets its children added one by one. `getMax` is modelled as
`getMaxChild`. A leaf's `null` children list is the empty sequence here. That is sound for
`updateScore`, the only operation the tree applies to a leaf, which skips `null` children
just as it skips an empty list (`controller/Node.java:77-85`). `addChild` would throw on `null`
(`controller/Node.java:39-41`), but the tree never adds a child to a leaf.

The search successors are modelled without the guards of the human move. Finding C below
explains why, and "Left out" says what this means where the human is to move.

## Model

| member | source | states |
|---|---|---|
| Players.Opponent | src/kalah/model/players/Player.java:30-39 | The human and the machine are each other's opponent, and NONE is its own. |
| Players.OpponentInvolution | src/kalah/model/players/Player.java:30-39 | Taking the opponent twice gives back the player. |
| Players.OpponentOfPlayerDiffers | src/kalah/model/players/Player.java:30-39 | No real player is its own opponent. |
| Pits.NewPit | src/kalah/model/Pit.java:22-25 | A pit built from an owner and a store flag keeps both and starts empty. |
| Pits.NewSowingPit | src/kalah/model/Pit.java:33-36 | A pit built from an owner and a seed count holds those seeds and is never a store. |
| Pits.SetSeeds | src/kalah/model/Pit.java:65-67 | Setting the seeds changes the count and neither owner nor store flag. |
| Pits.AddSeeds | src/kalah/model/Pit.java:75-77 | Adding seeds raises the count by exactly that many and changes nothing else. |
| Pits.Clone | src/kalah/model/Pit.java:113-115 | The copy has the original's owner, store flag and seeds. |
| Pits.IdentityIsFixed | src/kalah/model/Pit.java:12-14 | No sequence of mutations changes a pit's owner or store flag. |
| Pits.CloneIsIndependent | src/kalah/model/Pit.java:113-115 | A clone equals its original, and mutating it gives the same pit as mutating the original. |
| Pits.AddSeedsCompose | src/kalah/model/Pit.java:75-77 | Two additions equal one addition of their sum. |
| Pits.SetSeedsOverrides | src/kalah/model/Pit.java:65-77 | Setting the seeds forgets every earlier addition. |
| Layout.OwnerOf | src/kalah/model/BoardImpl.java:52-70 | A pit belongs to the human exactly when it is numbered up to the human store, and to the machine otherwise. |
| Layout.StoreOf | src/kalah/model/BoardImpl.java:162-166 | Captured seeds go to the human's store for the human and to the machine's store for any other mover. |
| Layout.PlayerPits | src/kalah/model/BoardImpl.java:296-311 | A player's pits are P consecutive numbers, P+2..2P+1 for the machine and 1..P for anyone else. None is a store, and each belongs to the machine exactly when the player is the machine. |
| Layout.InRowIsPlayerPits | src/kalah/model/BoardImpl.java:296-311 | A pit is in the list of a player's pits exactly when it lies in that player's row range. |
| Layout.Normalize | src/kalah/model/BoardImpl.java:177-181 | Wrapping puts every positive index on the board and leaves indices already on it alone. |
| Layout.NormalizeIsRemainder | src/kalah/model/BoardImpl.java:177-181 | Lap-by-lap wrapping equals the source's formula `(i - 1) % 2(P+1) + 1`. |
| Layout.NormalizeStep | src/kalah/model/BoardImpl.java:137-138 | Advancing the raw sowing counter by one advances the wrapped pit by one, from the machine store back to pit 1. |
| Layout.OpposingShape | src/kalah/model/BoardImpl.java:183-185 | The mirror of a sowing pit is a sowing pit of the other player and mirrors back. The human store is its own mirror. The machine store's mirror, 0, is off the board. |
| Layout.LocateIsBijection | src/kalah/model/BoardImpl.java:405-415 | The array lookup succeeds exactly for the numbers 1..2(P+1). It maps them one-to-one onto the 2 x (P+1) array cells. |
| Layout.Populate | src/kalah/model/BoardImpl.java:47-49 | The new board's array has two rows of P+1 pits. |
| Layout.PopulateMatchesLayout | src/kalah/model/BoardImpl.java:52-70 | Read through the lookup, every pit number has the owner, store flag and initial seeds of the flat layout. |
| Boards.NewBoard | src/kalah/model/BoardImpl.java:40-50 | A new board keeps its configuration. Every sowing pit holds the initial seeds, both stores are empty, and no move has been made. |
| Boards.Clone | src/kalah/model/BoardImpl.java:481-494 | The copy keeps cells, configuration, opening player and level. Its last move's source and target are 0. |
| Boards.SetLevel | src/kalah/model/BoardImpl.java:337-341 | A positive level replaces the search level. Any other level is ignored, and nothing else changes. |
| Boards.Winner | src/kalah/model/BoardImpl.java:374-397 | The machine wins exactly when its row holds more seeds and the human wins exactly when theirs does. Equal rows give a tie, where the source answers null. |
| Boards.RowsPartitionSeeds | src/kalah/model/BoardImpl.java:461-475 | The two players' seed totals, stores included, add up to all seeds on the board. |
| Boards.GameOverIffRowSumZero | src/kalah/model/BoardImpl.java:347-368 | The game is over exactly when the sowing pits of one row hold no seeds in total. |
| Boards.IsGameOver | src/kalah/model/BoardImpl.java:347-368 | Over when one player's sowing pits are all empty; GameOverIffRowSumZero and GameOverIffNoPlayablePit give its two source readings. |
| Boards.SeedsOfPlayer | src/kalah/model/BoardImpl.java:461-475 | A player's row total, store included, with the machine row for any player but the human; RowsPartitionSeeds and Winner relate the two totals. |
| Boards.GameOverIffNoPlayablePit | src/kalah/model/BoardImpl.java:347-368 | The game is over exactly when every pit in one player's list of pits is empty. |
| Sowing.Distribute | src/kalah/model/BoardImpl.java:135-147 | Sowing ends on a pit of the board that is not the opponent's store. |
| Sowing.DistributeAddsSeeds | src/kalah/model/BoardImpl.java:135-147 | Sowing adds exactly the sown seeds to the board's total. |
| Sowing.DistributeOnlyAdds | src/kalah/model/BoardImpl.java:141-146 | Sowing never removes a seed and never changes a store it passes over. The pit it ends in has gained a seed. |
| Sowing.DistributeStraight | src/kalah/model/BoardImpl.java:137-147 | Sowing that neither wraps nor meets a skipped store adds one seed to each of the next pits and ends in the last of them. |
| Sowing.SowSeeds | src/kalah/model/BoardImpl.java:131-150 | The source's loop computes exactly the seeds and landing pit of the recursive sowing from the pit after the emptied source. |
| Sowing.Capture | src/kalah/model/BoardImpl.java:152-167 | When the test applies, the landing pit and its mirror are emptied into the mover's store and nothing else changes. Otherwise the cells stay as they are. Either way the total is kept. |
| Sowing.CaptureAsWrittenFailsOnlyAtMachineStore | src/kalah/model/BoardImpl.java:153-154 | The capture as written fails exactly when the last seed lands in the machine store, and agrees with the corrected capture elsewhere. |
| Sowing.NextPlayer | src/kalah/model/BoardImpl.java:84-97 | The mover moves again exactly when the last seed went into the mover's own store; otherwise the opponent moves. |
| Sowing.CaptureAsWritten | src/kalah/model/BoardImpl.java:152-167 | The capture as written, failing at the facing-pit lookup; CaptureAsWrittenFailsOnlyAtMachineStore pins it down. |
| Sowing.PlyAsWritten | src/kalah/model/BoardImpl.java:122-168 | The ply as written; PlyAsWrittenFailsOnlyAtMachineStore pins it down. |
| Sowing.Ply | src/kalah/model/BoardImpl.java:122-168 | A ply keeps the board well-formed and records its source. It ends off the opponent's store. The mover moves again exactly when the last seed lands in a store. |
| Sowing.PlyConservesSeeds | src/kalah/model/BoardImpl.java:131-168 | Sowing and capturing keep the total number of seeds on the board. |
| Sowing.PlyLeavesOpponentStore | src/kalah/model/BoardImpl.java:141-146 | A player's ply never changes the opponent's store. |
| Sowing.PlyAsWrittenFailsOnlyAtMachineStore | src/kalah/model/BoardImpl.java:149-167 | The ply as written fails exactly when the sowing ends in the machine store, which only the machine can reach. Elsewhere it equals the corrected ply. |
| Sowing.MachineSowIntoOwnStoreFails | src/kalah/model/BoardImpl.java:153-154 | On the standard 6x4 board, the machine's pit 10 ends in its store and the ply as written fails. |
| Sowing.Move | src/kalah/model/BoardImpl.java:103-129 | The guards are checked in the source's order. A finished game, the machine's turn, a pit off the grid, and an empty, store or foreign pit each give their own outcome. A legal pit gives a board that keeps the seed total, with the human moving again exactly when the last seed lands in their store. |
| Sowing.HumanMoveAvoidsFailingLookup | src/kalah/model/BoardImpl.java:103-168 | A legal human move never reaches the failing capture lookup. |
| Boards.StandardOpening | src/kalah/model/BoardImpl.java:40-70 | The standard board holds four seeds in every sowing pit and none in the stores, and is not finished. |
| Sowing.OpeningSown | src/kalah/model/BoardImpl.java:135-147 | The four seeds of the standard board's pit 3 go into pits 4 to 7. |
| Sowing.OpeningPly | src/kalah/model/BoardImpl.java:122-126 | The human's pit 3 on the standard board gives the cells after sowing, with source 3, target 7 and the human to move again. |
| Sowing.OpeningMoveEarnsExtraTurn | src/kalah/model/BoardImpl.java:84-129 | The human's move from pit 3 on the standard board succeeds and earns the human another turn. |
| Evaluation.Reach | src/kalah/model/BoardImpl.java:319-331 | At most one landing pit per listed pit, each at least 2; Search.ReachOfRun says which. |
| Evaluation.RawTargets | src/kalah/model/BoardImpl.java:319-331 | A player has at most P landing pits; Search.RawTargetsFollowChoices says which. |
| Search.ReachOfRun | src/kalah/model/BoardImpl.java:322-327 | Over a run of consecutive pits, the landing pits are, in order, each pit that holds seeds plus its seeds. |
| Search.RawTargetsFollowChoices | src/kalah/model/BoardImpl.java:319-331 | A player's landing pits are, position by position, each of the player's non-empty pits plus its seeds. |
| Evaluation.Targets | src/kalah/model/BoardImpl.java:177-181 | The corrected landing pits are the raw ones wrapped onto the board, one for one. |
| Evaluation.NothingToCatch | src/kalah/model/BoardImpl.java:237-251 | A player none of whose sowing pits is empty has nothing to catch. |
| Evaluation.Exposed | src/kalah/model/BoardImpl.java:259-273 | No more pits are counted exposed than were examined; Evaluation.ExposedCountsRun says which. |
| Evaluation.ExposedIn | src/kalah/model/BoardImpl.java:259-273 | The exposed pits of a run: empty, and facing a pit with at least twice the initial seeds. |
| Evaluation.ExposedCountsRun | src/kalah/model/BoardImpl.java:259-273 | Over a run of consecutive pits, the count is exactly the number of empty pits whose facing pit holds at least twice the initial seeds. |
| Evaluation.NothingExposed | src/kalah/model/BoardImpl.java:259-273 | A row without empty pits exposes nothing. |
| Evaluation.ExposedPits | src/kalah/model/BoardImpl.java:259-273 | At most P of a player's pits are exposed; Evaluation.ExposedPitsCountsRow says which. |
| Evaluation.ExposedPitsCountsRow | src/kalah/model/BoardImpl.java:259-273 | A player's count is the number of exposed pits in the player's row. |
| Evaluation.Catchable | src/kalah/model/BoardImpl.java:237-251 | A positive catch sum comes from some landing pit that is an empty sowing pit of the player's own; NothingToCatch is the converse case. |
| Evaluation.CatchAtAsWritten | src/kalah/model/BoardImpl.java:239-242 | The catch at one landing pit as written, failing off the board; CatchAtAsWrittenAgrees compares it with the corrected catch. |
| Evaluation.CatchableAppend | src/kalah/model/BoardImpl.java:237-251 | The catch sum is additive over the list of landing pits: each landing adds what it alone would catch, as the loop's running sum does. |
| Evaluation.CatchableAsWritten | src/kalah/model/BoardImpl.java:237-251 | The catch sum as written; CatchableAsWrittenAgrees compares it with Catchable. |
| Evaluation.Evaluate | src/kalah/model/BoardImpl.java:225-294 | The weighted sum of store, catch and exposure terms, or the terminal bonus; ScoreOfDecidedBoard and ScoreIgnoresDepthUntilDecided state its cases. |
| Evaluation.Score | src/kalah/model/BoardImpl.java:225-294 | The corrected evaluation; ScorePrefersEarlyWins, OpeningScoresLevel and ScoreAsWrittenAgrees state its properties. |
| Evaluation.ScoreAsWritten | src/kalah/model/BoardImpl.java:225-294 | The evaluation as written, failing where a catch lookup leaves the board; ScoreAsWrittenAgrees and StandardOpeningScoreFails pin it down. |
| Evaluation.ScoreIgnoresDepthUntilDecided | src/kalah/model/BoardImpl.java:277-293 | Away from a decided end, the score does not depend on the depth. |
| Evaluation.ScorePrefersEarlyWins | src/kalah/model/BoardImpl.java:282-289 | A machine win scores positive and falls with depth. A human win scores negative and rises with depth. |
| Evaluation.ScoreOfDecidedBoard | src/kalah/model/BoardImpl.java:282-289 | On a decided board the score is 500/depth for a machine win and -750/depth for a human win. |
| Evaluation.OpeningScoresLevel | src/kalah/model/BoardImpl.java:225-294 | A new board with at least one seed per pit scores 0 at every depth. |
| Evaluation.CatchAtAsWrittenAgrees | src/kalah/model/BoardImpl.java:239-242 | Where the catch at one landing pit as written succeeds, the pit is on the board and the catch is the corrected one. |
| Evaluation.CatchableAsWrittenAgrees | src/kalah/model/BoardImpl.java:237-251 | Where the catch sum as written succeeds, every landing pit is on the board and the sum is the corrected one. |
| Evaluation.ScoreAsWrittenAgrees | src/kalah/model/BoardImpl.java:225-294 | Wherever the score as written has a value, it equals the corrected score. |
| Evaluation.ReachOfFullPits | src/kalah/model/BoardImpl.java:322-327 | Pits that all hold s seeds each land s pits further on. |
| Evaluation.StandardOpeningMachineReach | src/kalah/model/BoardImpl.java:319-331 | On the standard board, the machine's landing pits are 12 to 17. |
| Evaluation.StandardOpeningMachineCatchFails | src/kalah/model/BoardImpl.java:245-251 | On the standard board, the machine's catch sum as written looks up pit 0 and fails. |
| Evaluation.StandardOpeningScoreFails | src/kalah/model/BoardImpl.java:225-294 | The score as written has no value on the standard board, which is not finished. |
| ScoreTree.NewNode | src/kalah/controller/Node.java:16-22 | A new node's total and local score both start at the given score. |
| ScoreTree.NewLeaf | src/kalah/controller/Node.java:24-29 | A node built without children has none, and its total and local score start at the given score. |
| ScoreTree.AddChild | src/kalah/controller/Node.java:39-41 | The child is appended after the existing children, which stay in place, and nothing else changes. |
| ScoreTree.SetChildren | src/kalah/controller/Node.java:35-37 | The children are replaced and nothing else changes. |
| ScoreTree.AddChildrenInOrder | src/kalah/controller/Node.java:35-41 | Adding children one by one gives the same node as setting the whole list at once. |
| ScoreTree.ScanMax | src/kalah/controller/Node.java:107-117 | The scan returns a position whose score is at least every other, and strictly above every earlier one. |
| ScoreTree.ScanMin | src/kalah/controller/Node.java:95-105 | The scan returns a position whose score is at most every other, and strictly below every earlier one. |
| ScoreTree.ArgMax | src/kalah/controller/Node.java:107-117 | The first position of a highest score. |
| ScoreTree.ArgMin | src/kalah/controller/Node.java:95-105 | The first position of a lowest score. |
| ScoreTree.GetMaxChild | src/kalah/controller/Node.java:107-117 | The child returned is one of the children and scores at least as high as every child. |
| ScoreTree.GetMinChild | src/kalah/controller/Node.java:95-105 | The child returned is one of the children and scores at most as high as every child. |
| ScoreTree.SelectedChildIsFirst | src/kalah/controller/Node.java:95-117 | On ties the first child with the extreme score is selected. |
| ScoreTree.UpdateScore | src/kalah/controller/Node.java:76-93 | The backup keeps the board, local score, depth and number of children. |
| ScoreTree.Minimax | src/kalah/controller/Node.java:76-93 | The reference minimax value from the local scores alone, max at machine nodes and min at human nodes; UpdateScoreComputesMinimax ties it to the backup. |
| ScoreTree.MaxOf | src/kalah/controller/Node.java:107-117 | The largest of a non-empty list: a member at least every entry. |
| ScoreTree.MinOf | src/kalah/controller/Node.java:95-105 | The smallest of a non-empty list: a member at most every entry. |
| ScoreTree.UpdateAll | src/kalah/controller/Node.java:81 | Every child gets its own backup, position by position. |
| ScoreTree.MinimaxAll | src/kalah/controller/Node.java:76-93 | The reference minimax value of each tree of a list, position by position. |
| ScoreTree.SelectionDependsOnScores | src/kalah/controller/Node.java:95-117 | The selected position depends on the children's scores alone. |
| ScoreTree.ArgMaxIsMaxOf | src/kalah/controller/Node.java:95-117 | The selected child's score is the maximum, or the minimum, of the scores. |
| ScoreTree.UpdateScoreComputesMinimax | src/kalah/controller/Node.java:76-93 | One backup of a freshly built tree gives the root the minimax value of the tree, defined from the local scores alone. |
| ScoreTree.UpdateScoreOfLeaf | src/kalah/controller/Node.java:83-85 | A node without children is left exactly as it is. |
| ScoreTree.UpdateScoreWithoutPlayer | src/kalah/controller/Node.java:87-91 | A node whose board has no player to move keeps its total. |
| GameTree.Build | src/kalah/model/BoardImpl.java:198-211 | A node is scored at its depth with its total equal to its local score. A leaf holds a copy of its board where copies are made, and every other node holds the board itself. |
| GameTree.BuildAll | src/kalah/model/BoardImpl.java:204-208 | One subtree per successor, in successor order. |
| GameTree.BuildChildren | src/kalah/model/BoardImpl.java:198-211 | A node is a leaf exactly when it stops or has no successor. Otherwise its children are the successors' trees, one level deeper. |
| GameTree.BuildIsBounded | src/kalah/model/BoardImpl.java:198-211 | No path of the tree is longer than the search level minus the depth. |
| GameTree.ChildrenBounded | src/kalah/model/BoardImpl.java:204-208 | The same depth bound for the children of a node. |
| GameTree.BuildIsFresh | src/kalah/model/BoardImpl.java:198-211 | A tree just built has every total equal to its local score. |
| GameTree.ChildrenFresh | src/kalah/model/BoardImpl.java:204-208 | Freshness for the children of a node. |
| GameTree.CopyKeepsMinimax | src/kalah/model/BoardImpl.java:199-200 | Copying the leaves' boards never changes a minimax value. |
| GameTree.ChildrenCopyKeepMinimax | src/kalah/model/BoardImpl.java:204-208 | The same for the children of two nodes built from the same boards. |
| GameTree.RootChildren | src/kalah/model/BoardImpl.java:191-196 | After the backup, the root's children are the successors' backed-up trees, each with its subtree's minimax value as total. |
| GameTree.ChosenIndex | src/kalah/model/BoardImpl.java:191-196 | The chosen position is that of a successor. |
| GameTree.ChosenIndexMaximises | src/kalah/model/BoardImpl.java:191-196 | The chosen successor's subtree has the highest minimax value, and every earlier successor's is strictly lower. |
| GameTree.Choose | src/kalah/model/BoardImpl.java:191-196 | The board returned is the chosen successor, or its copy when copies are made and that successor is a leaf. |
| GameTree.ChooseWithCopies | src/kalah/model/BoardImpl.java:191-200 | Copying the leaves does not change the chosen position. |
| Search.Playable | src/kalah/model/BoardImpl.java:216-217 | Every pit listed lies in the range and holds seeds. |
| Search.PlayableAscending | src/kalah/model/BoardImpl.java:216-217 | The pits are listed in strictly ascending order. |
| Search.PlayableCovers | src/kalah/model/BoardImpl.java:216-217 | Every pit of the range that holds seeds is listed. |
| Search.Choices | src/kalah/model/BoardImpl.java:213-223 | Every pit a player may sow is an on-board pit of that player's row and holds seeds. |
| Search.ChoicesOrdered | src/kalah/model/BoardImpl.java:213-223 | A player's choices ascend and include every pit of the row that holds seeds. |
| Search.Plies | src/kalah/model/BoardImpl.java:216-220 | One well-formed board per pit, keeping level and size and recording that pit as source. |
| Search.PlyAt | src/kalah/model/BoardImpl.java:216-220 | The board at a position is the ply from the pit at that position. |
| Search.PossibleGameStates | src/kalah/model/BoardImpl.java:213-223 | One well-formed successor per choice, in choice order, keeping the level and recording its pit as source. |
| Search.SuccessorAt | src/kalah/model/BoardImpl.java:213-223 | The successor at a position is the ply from a pit of the player's row that holds seeds. |
| Search.PossibleGameStatesComplete | src/kalah/model/BoardImpl.java:213-223 | Every successor is the ply of a pit of the row that holds seeds. Their source pits ascend, and every such pit has its successor. |
| Search.MachineHasSuccessor | src/kalah/model/BoardImpl.java:213-223 | While the game goes on, the machine has a successor. |
| Search.PossibleGameStatesAsWritten | src/kalah/model/BoardImpl.java:213-223 | As written, each choice goes through the guarded human move. |
| Search.MachineSuccessorsAsWrittenNeverMoved | src/kalah/model/BoardImpl.java:103-115 | As written, no machine pit ever gives a board. On the machine's turn the move is refused, and on the human's turn the pit is not the human's. |
| Search.PlayableOfFullRun | src/kalah/model/BoardImpl.java:216-217 | Where every pit of a run holds seeds, all of them are listed, in order. |
| Search.HumanSowsMachinePit | src/kalah/model/BoardImpl.java:131-168 | Sown for the human, the standard board's pit 13 passes over the machine's store and lands in pit 4, and the machine moves next. |
| Search.HumanTurnSowsMachinePitForHuman | src/kalah/model/BoardImpl.java:204 | With the human to move, the successors still sow the machine's pits, for the human: the last one is that ply from pit 13. |
| Search.SearchRulesClosed | src/kalah/model/BoardImpl.java:213-223 | Successors of a well-formed board are well-formed and keep its search level. |
| Search.ConstructTreeAsWritten | src/kalah/model/BoardImpl.java:198-211 | A node is scored at its depth, and a leaf holds a copy of its board. Only the leaf clone of line 200 is as written; successors and score are the corrected ones of Findings A to C. |
| Search.ConstructTree | src/kalah/model/BoardImpl.java:198-211 | A node is scored at its depth and holds its own board. |
| Search.ConstructTreeChildren | src/kalah/model/BoardImpl.java:198-211 | A node is a leaf exactly at the search level or on a finished game. Otherwise it has one child per machine successor, in ascending pit order. |
| Search.ConstructTreeAsWrittenChildren | src/kalah/model/BoardImpl.java:198-211 | The tree as written has the same shape, with copies only at the leaves. |
| Search.ConstructTreeShape | src/kalah/model/BoardImpl.java:198-211 | The tree reaches no deeper than the search level, and every total equals its local score. |
| Search.SearchCanChoose | src/kalah/model/BoardImpl.java:191-196 | On an unfinished board searched at least one ply deep, the root is scored and has a successor to choose. |
| Search.MachineMove | src/kalah/model/BoardImpl.java:191-196 | The machine's move is the ply from one of its own pits that holds seeds. |
| Search.MachineMoveIsChosen | src/kalah/model/BoardImpl.java:191-196 | The machine's move is the successor at the position the search chooses. |
| Search.ChosenSubtreeIsBest | src/kalah/model/BoardImpl.java:191-196 | The chosen successor's subtree has the highest minimax value, and every earlier successor's is strictly lower. |
| Search.MachineMoveMaximisesMinimax | src/kalah/model/BoardImpl.java:191-211 | The move is the successor with the highest minimax value, the first in ascending pit order among equals. |
| Search.MachineMoveAsWritten | src/kalah/model/BoardImpl.java:191-200 | The move keeps the chosen successor's seeds and level. Only the leaf clone of line 200 is as written; successors and score are the corrected ones of Findings A to C. |
| Search.MachineMoveAsWrittenForgetsSource | src/kalah/model/BoardImpl.java:199-200 | With Findings A to C repaired, a chosen successor that ends the search comes back as a copy. At search level 1 the move therefore reports source 0, though a pit was sown. |

## Left out

- `toString` of `Pit`, `BoardImpl` and `Node` is left out: it is text formatting only.
- The plain getters and setters are left out: `getOpeningPlayer`, `getSeeds`,
  `sourcePitOfLastMove`, `targetPitOfLastMove`, `getPitsPerPlayer`, `getSeedsPerPit`,
  `getScore`, `getLocalScore`, `getLevel`/`getDepth`, `setScore`, `setLevel` and `setBoard` of
  `Node`. Each is a datatype field read or update.
- Object identity and aliasing are not modelled: every board and node is a value. The source
  mutates fresh clones in `move` and mutates tree nodes in place during the backup; nothing else
  observes that state.
- Pits.AddSeeds: does not model 32-bit wrap-around of the seed counts. A board would need more
  than 2^31 seeds for it to matter.
- The score is a `real`. IEEE rounding of `double` is not modelled.
- The source scores a decided board at depth 0 as `500.0 / 0`, an infinity. The model excludes
  that case (`Search.ScoreArgs`, and the requires of `Evaluation.Score`). It can only arise at
  the root of a search on a finished game, which the source cannot search anyway (see the next
  line).
- Search.MachineMove: requires an unfinished board and a search level of at least 1. Otherwise
  the source's root has no children. `getMaxChild` then dereferences `null` (a leaf) or reads
  element 0 of an empty list. The model has no error result for this crash.
- Boards.NewBoard: requires at least one pit per player and a seed count that is not negative,
  as every board does (`Boards.Valid`, and `nat` seed counts). The shell's `new` command passes
  both numbers to the constructor unchecked (`Shell.java:190-199`, `Shell.java:91-95`), so the
  source also accepts these cases (`BoardImpl.java:40-70`, `BoardImpl.java:347-397`):
  - 0 pits gives a board with the two stores only. It is finished at once, and sowing on it
    would never end.
  - -1 pits gives two empty rows. The game is over at once, and the winner is a tie.
  - -2 pits or fewer makes the array allocation throw.
  - A negative seed count fills every sowing pit with that count. No pit holds more than 0, so
    the game is over at once, and the equal rows make the winner a tie.
- The exceptions of `move` are outcomes of `Sowing.Move`. `IllegalMoveException` gives
  `GameAlreadyOver` or `NotYourTurn`, and `IllegalArgumentException` gives `PitNotOnGrid`. Their
  messages are not modelled.
- The two `Node` classes (`kalah.controller` and `kalah.minimax`) have the same score logic. One
  module models both. The source cells cite the copy `BoardImpl` imports.
- At a node where the human is to move, the tree still lists the machine's pits
  (`BoardImpl.java:204`). The source gets no board from them, since `move` refuses a machine
  pit (`BoardImpl.java:110-114`). The model sows each of them for the human, the player to move:
  the machine's store is passed over and a capture goes to the human's store
  (`Search.HumanTurnSowsMachinePitForHuman`). This is neither the source nor a rule of the game,
  in which the human would sow their own pits. The backup still takes the minimum over these
  boards (`controller/Node.java:89-90`).
- The user interface, the mediator and the shell are not modelled. They only call this core.

## Findings

| source | as written | input that shows it | evidently intended | confidence | as-written member | corrected member |
|---|---|---|---|---|---|---|
| src/kalah/model/BoardImpl.java:153-154 | The capture step looks up the pit facing the landing pit before testing for a store. A last seed in the machine's store faces pit 0, and `getPit(0)` reads index -1 of the human row. | Standard 6-pit, 4-seed board, machine to move, pit 10: its seeds go into 11, 12, 13 and 14, the machine's store. The defect is latent as written: `sowSeeds` is private and only `move` calls it, which never sows for the machine (line 106), and `Sowing.HumanMoveAvoidsFailingLookup` proves that no legal human move reaches the lookup. The crash appears only once the machine's successors are sown without those guards, as the repair of Finding C does. | No capture from a store: test `isStore` first, and never look up pit 0. | not executed | Sowing.MachineSowIntoOwnStoreFails | Sowing.Ply |
| src/kalah/model/BoardImpl.java:245-251 | The evaluation's landing pits are `pit + seeds`, neither wrapped nor kept off the stores. A landing on the machine's empty store looks up facing pit 0. A landing past it indexes the machine row at a negative column. | The standard 6-pit, 4-seed opening board: the machine's pit 10 lands on 14. | Wrap `pit + seeds` onto the board with `normalizePitNum`, and count only sowing pits. Unlike sowing, this does not pass over the opponent's store. | not executed | Evaluation.StandardOpeningScoreFails | Evaluation.OpeningScoresLevel |
| src/kalah/model/BoardImpl.java:213-223 | The tree's successors are made with the public `move`. On the machine's turn it throws "not your turn" (line 106). On the human's turn it returns `null` for every machine pit (lines 110-114), and `constructTree` then calls `constructTree` on each `null` at line 206, which throws a NullPointerException. | Any unfinished board. | Each of the machine's pits that holds seeds gives a successor: the ply from it without the guards of the human move. The source does not say who should sow at a node where the human is to move; the model sows for the player to move (see "Left out"). | not executed | Search.MachineSuccessorsAsWrittenNeverMoved | Search.PossibleGameStatesComplete |
| src/kalah/model/BoardImpl.java:199-200 | Leaves hold `clone()`, and the clone's private constructor does not copy the last move (lines 481-494). The machine's move at search level 1 is always such a leaf, so it reports source and target 0. | Latent as written: every caller asks for the machine's move only on the machine's turn, so `move` throws at :106 (Finding C) before any leaf at :200 is built, and on the standard opening `calcScore(0)` fails earlier still at :202 (Finding B). The defect shows only once Finding C is repaired, and Finding B too where it applies, as in the hybrid `Search.MachineMoveAsWritten`; then any unfinished board searched at level 1 shows it. | Return the chosen successor itself, with the pit it was sown from. | not executed | Search.MachineMoveAsWrittenForgetsSource | Search.MachineMoveMaximisesMinimax |
