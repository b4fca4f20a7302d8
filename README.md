# Rule builder core, modelled in Dafny

The rule builder edits *conditions*: a condition has an id, a name, a one-line
`expression` such as `custom_fields.issue_category_l1 == 'Bus'` and a list of
*effects*, each saying which values a target field may take when the expression holds.
A condition can be edited in two ways:

- on a **canvas**, as a graph of flow nodes (`trigger` holds the field, `operator` the
  comparison, `value` the literal, `logical` an AND/OR, `action` an effect), joined by
  edges;
- in a **sentence form**, as a list of `field operator value` sentences, each after the
  first carrying an AND/OR connector, beside the list of effects.

Text and graph are kept in step by a parser (`parseExpressionToNodes`) and a generator
(`generateExpressionFromFlow`, `generateEffectsFromFlow`); text and sentences by
`parseConditionToSentences` and `generateExpressionFromSentences`, with a delayed commit
from the form to the condition. The application keeps the list of conditions and
switches between a dashboard, a list view and the editor; the dashboard and the list view
read a headline `field operator value` back out of each expression, filter the list and
count what is shown.

The model has one module per source file of that core:

| module | file | form |
|---|---|---|
| `Types` | `src/types/condition.ts` and the node/edge records | datatypes; `Canvas`, a class holding the node and edge lists |
| `Regex` | the regular expressions the core uses | a backtracking matcher with the JavaScript rules for `match` and `split` |
| `ClauseSyntax` | the one-clause pattern `(.+?)\s*(==\|!=\|>\|<\|>=\|<=)\s*(.+)` | functions and lemmas |
| `ConditionEditor` | `src/components/ConditionEditor.tsx` | functions for the pure helpers; class `Editor` for the component state |
| `SentenceView`, `SentenceRoundTrip` | `src/components/ConditionSentenceView.tsx` | functions, loop methods; class `Form` |
| `ConditionDashboard` | `src/components/ConditionDashboard.tsx` | functions and lemmas |
| `ConditionListView` | `src/components/ConditionListView.tsx` | functions and lemmas |
| `ConditionStore` | `src/App.tsx` | class `App` |
| `ActionNode`, `OperatorNode`, `TriggerNode`, `ValueNode`, `LogicalNode`, `NodeTypeDropdown`, `EnhancedHandle` | `src/components/flow-nodes/*.tsx` | classes for the components with their own state, methods that update the canvas |
| `FieldOptions` | `src/data/fieldOptions.ts` | the option table and its lookups |

The loops of the source (`parseExpressionToNodes` pushing one action node per effect,
`generateExpressionFromFlow` walking the trigger nodes, the `for` loops of
`parseConditionToSentences` and `generateExpressionFromSentences`) are methods with
loop invariants, each proved equal to a function that the lemmas then reason about.
State the components change (node and edge lists, the sentence list, the condition
list, hover and drag flags) are fields of classes whose methods state the whole new
state.

Where the written design of the project and the code disagree, the model follows the code:

- The design says a headline parser shows only the last path segment of an
  `applies_to_part` value (`.../product/6` as `6`). In the code that branch can only
  run when the one-clause pattern did not match, and every `applies_to_part` clause does
  match it, so the full identifier is shown (`ConditionDashboard.PartImpliesSimple`,
  `ConditionStore.PartHeadline`).
- The design says values are quoted when they hold whitespace or a quote. The graph
  generator's two-clause branch tests `/['\\s]/`, that is a quote, a backslash or the
  letter `s` (`ConditionEditor.BranchQuotingDiffers`).
- The design lists `>=` and `<=` as clause operators. The lazy field group and the order
  of the alternation make both parsers read `a >= 5` as `a > '= 5'`
  (`ConditionEditor.LongOperatorSplits`, `SentenceRoundTrip.LongOperatorMisread`).
- The operator node offers `contains`, `starts_with` and `ends_with`, which no parser
  reads back (`ConditionEditor.WordOperatorLost`).
- The graph parser reads only one clause; a two-clause expression written by the
  generator reads back as one clause whose field starts with `(`
  (`ConditionEditor.LogicalTextReadsAsOneClause`).

Inputs the source takes from the environment are parameters: `now` for `Date.now()`,
`blankId` for the id built from `Math.random()`, positions for the random placement of a
new node and for the mouse position in canvas coordinates.

## Model

| member | source | states |
|---|---|---|
| `ClauseSyntax.ClauseCaptures` | src/components/ConditionEditor.tsx:416 | the clause pattern yields exactly three groups, and no groups exactly when it does not match anywhere in the text |
| `ClauseSyntax.NoOperatorNoClause` | src/components/ConditionSentenceView.tsx:518 | text without any of the characters `= ! < >` never matches the clause pattern |
| `ClauseSyntax.ClauseRoundTrip` | src/components/ConditionSentenceView.tsx:518-526 | a clause `f op v` written with the quoting rule reads back as field `f`, operator `op` and, after cleaning, value `v`, for every plain field, one-character-led operator and quote-free value |
| `ClauseSyntax.LongClauseCaptures` | src/components/ConditionSentenceView.tsx:518 | a clause written with `>=` or `<=` is captured with operator `>` or `<` and a value starting with `= ` |
| `ClauseSyntax.ValueText` | src/components/ConditionSentenceView.tsx:525 | a cleaned value holds no single or double quote |
| `Text.Trim` | src/components/ConditionSentenceView.tsx:499 | the trimmed text neither starts nor ends with whitespace |
| `Text.LastSegment` | src/components/ConditionEditor.tsx:628 | the last `.`-separated segment is a suffix of the text that holds no separator, and the whole text when there is none |
| `Text.ToLower` | src/components/ConditionDashboard.tsx:88-90 | lower-casing of ASCII letters: each character is mapped on its own, `A`–`Z` to `a`–`z`, everything else unchanged (so the length is kept) |
| `Text.NatToStringInjective` | src/App.tsx:667 | two different clock readings give two different decimal ids |
| `Types.FindNodeFacts` | src/components/ConditionEditor.tsx:538 | `find` returns the first node with the id, and nothing exactly when no node has it |
| `Types.FirstOfKindFacts` | src/components/ConditionEditor.tsx:500 | the first node of a kind is returned, and nothing exactly when the graph has none |
| `Types.OfKindFacts` | src/components/ConditionEditor.tsx:495-496 | filtering by kind keeps exactly the nodes of that kind, and its head is the first such node |
| `Types.UpdateById` | src/components/flow-nodes/ActionNode.tsx:39-51 | the node with the id is replaced by its update and every other node is unchanged |
| `Types.WithField` | src/components/flow-nodes/TriggerNode.tsx:21-33 | the node with the id gets the new field and no other key of any node changes |
| `Types.WithOperator` | src/components/flow-nodes/OperatorNode.tsx:24-36 | the node with the id gets the new operator and no other key of any node changes |
| `Types.WithValue` | src/components/flow-nodes/ValueNode.tsx:12-24 | the node with the id gets the new value and no other key of any node changes |
| `Types.WithShow` | src/components/flow-nodes/ActionNode.tsx:53-65 | the node with the id gets the new show flag and no other key of any node changes |
| `Types.RemoveAt` | src/components/ConditionSentenceView.tsx:169-171 | removing an index in range drops exactly that element; an index out of range changes nothing |
| `Types.RemoveAtShape` | src/components/flow-nodes/ActionNode.tsx:91-109 | after removal the list is one shorter and the later elements move down by one |
| `ConditionEditor.DefaultNodeData` | src/components/ConditionEditor.tsx:328-343 | only a value node gets a value, only operator and logical nodes an operator, only an action node a show flag (true), no kind default values, and an unknown kind an empty record |
| `ConditionEditor.NextNodeType` | src/components/ConditionEditor.tsx:672-681 | the next kind is always a known kind other than `logical`, and `trigger` for an unknown kind |
| `ConditionEditor.DefaultFlowFacts` | src/components/ConditionEditor.tsx:345-408 | the starter graph generates the empty expression, one effect on the level-1 category, and has distinct node ids |
| `ConditionEditor.ParseExpressionToNodes` | src/components/ConditionEditor.tsx:410-491 | the loop builds the graph the parser describes: trigger, operator, value and one action node and edge per effect |
| `ConditionEditor.ParsedGraphShape` | src/components/ConditionEditor.tsx:416-491 | an expression that does not match yields the empty graph; one that matches yields `3 + n` nodes with distinct ids and `2 + n` edges along the chain, every action shown |
| `ConditionEditor.ClauseGraphIds` | src/components/ConditionEditor.tsx:420-456 | the parsed nodes are `if-1`, `operator-1`, `value-1` then `action-1`, `action-2` … and no two share an id |
| `ConditionEditor.ClauseGraphEdges` | src/components/ConditionEditor.tsx:458-487 | the parsed edges run from the value node to each action, then trigger to operator and operator to value |
| `ConditionEditor.ClauseGraphShown` | src/components/ConditionEditor.tsx:454 | `show: effect.show \|\| true` makes every parsed action node shown, even for a hidden effect |
| `ConditionEditor.BranchQuote` | src/components/ConditionEditor.tsx:558 | a value is quoted exactly when it holds a quote, a backslash or the letter `s` |
| `ConditionEditor.FirstEdgeToFacts` | src/components/ConditionEditor.tsx:531-550 | the edge found is the first one from the node to a node of the wanted kind, and none is found exactly when no edge qualifies |
| `ConditionEditor.GenerateExpressionFromFlow` | src/components/ConditionEditor.tsx:493-567 | the loop over the trigger nodes returns the expression the generator describes |
| `ConditionEditor.SingleClauseEmpty` | src/components/ConditionEditor.tsx:498-521 | without a logical node the text is empty exactly when a trigger, operator or value node is missing or its field, operator or value is empty or `none` |
| `ConditionEditor.SingleText` | src/components/ConditionEditor.tsx:498-521 | without a logical node, complete first trigger, operator and value nodes give the clause `f op v` with the usual quoting, whatever the edges |
| `ConditionEditor.CompleteChains` | src/components/ConditionEditor.tsx:524-560 | when every trigger has a complete chain, one clause per trigger comes out, in order |
| `ConditionEditor.BrokenChainSkipped` | src/components/ConditionEditor.tsx:524-560 | a trigger whose chain is incomplete contributes nothing: removing it does not change the clauses |
| `ConditionEditor.TwoClauses` | src/components/ConditionEditor.tsx:562-566 | two clauses are joined by the first logical node's operator and wrapped in parentheses without inner spaces |
| `ConditionEditor.BranchQuotingDiffers` | src/components/ConditionEditor.tsx:518 | the two generator branches quote differently: `a b` is quoted by one and not the other, `yes` the other way round |
| `ConditionEditor.ReparsedClause` | src/components/ConditionEditor.tsx:410-491 | a clause written from a plain field, a one-character-led operator and a clean value parses back to the graph of exactly that field, operator and value |
| `ConditionEditor.SingleRoundTrip` | src/components/ConditionEditor.tsx:493-521 | generating the text of a single-clause graph and parsing it back gives the clause graph of the same field, operator and value |
| `ConditionEditor.LongOperatorSplits` | src/components/ConditionEditor.tsx:416 | a `>=` or `<=` clause parses back with operator `>` or `<` and value `= v` |
| `ConditionEditor.WordOperatorLost` | src/components/ConditionEditor.tsx:416 | a clause with `contains`, `starts_with` or `ends_with` parses to the empty graph |
| `ConditionEditor.LogicalCaptures` | src/components/ConditionEditor.tsx:416 | the text of a multi-clause graph is captured as field `(f1`, the first operator and all the rest as the value |
| `ConditionEditor.LogicalTextReadsAsOneClause` | src/components/ConditionEditor.tsx:410-491 | so the parser turns that text into a single-clause graph with field `(f1` |
| `ConditionEditor.EffectsFromFlow` | src/components/ConditionEditor.tsx:569-580 | every generated effect has exactly one field, neither empty nor `none`, default values, and no optional or mandatory flag |
| `ConditionEditor.EffectsRoundTrip` | src/components/ConditionEditor.tsx:569-580 | parsing an expression with effects and generating the effects back keeps their number, allowed values, first field and default values, and sets show |
| `ConditionEditor.ClauseGraphEffects` | src/components/ConditionEditor.tsx:444-467 | the action nodes of a parsed graph give back one effect per input effect, in order |
| `ConditionEditor.ActionNodeEffect` | src/components/ConditionEditor.tsx:569-580 | an action node built from an effect with a usable field is kept and yields that effect's canonical form |
| `ConditionEditor.Named` | src/components/ConditionEditor.tsx:600-629 | a generated name is the word followed by ` Condition` |
| `ConditionEditor.SmartName` | src/components/ConditionEditor.tsx:582-630 | a smart name always ends in ` Condition` and is never `Untitled` |
| `ConditionEditor.SmartNamePartOrder` | src/components/ConditionEditor.tsx:595-609 | for a part trigger, a value mentioning `product` gives `Product Condition`, and one mentioning none of the four words `Part-based Condition` |
| `ConditionEditor.PartNameRanked` | src/components/ConditionEditor.tsx:599-607 | the words are checked in order, so `ondc bus` is a bus and `bus product` a product |
| `ConditionEditor.SmartNameFallback` | src/components/ConditionEditor.tsx:611-629 | a field matching none of the known words is named after its capitalised last segment, with no dot left |
| `ConditionEditor.ReadableSentenceShape` | src/components/ConditionEditor.tsx:156-181 | the readable sentence is `No condition defined` exactly for the empty expression and otherwise starts with `If ` |
| `ConditionEditor.ReadableClean` | src/components/ConditionEditor.tsx:163-172 | after the replacements no `<`, `>` or `_` is left in the expression part |
| `ConditionEditor.ThenClean` | src/components/ConditionEditor.tsx:175-178 | the `then set` part holds no underscore |
| `ConditionEditor.SentenceClean` | src/components/ConditionEditor.tsx:156-181 | the whole readable sentence holds no underscore |
| `ConditionEditor.TargetLabelCustom` | src/components/ConditionEditor.tsx:176 | a target label is the field without `custom_fields.` and with every underscore turned into a space |
| `ConditionEditor.ConditionId` | src/components/ConditionEditor.tsx:126 | the saved id is never empty |
| `ConditionEditor.SaveName` | src/components/ConditionEditor.tsx:119-123 | a condition with an expression is never saved as `Untitled` |
| `ConditionEditor.SaveFromCanvas` | src/components/ConditionEditor.tsx:112-131 | saving from the canvas stores the generated expression and effects, keeps an existing id, keeps a chosen name and replaces `Untitled` when there is an expression |
| `ConditionEditor.ChildNode` | src/components/ConditionEditor.tsx:729-740 | the dropped node has the next kind after the source, its default data and the given position |
| `ConditionEditor.ChildEdge` | src/components/ConditionEditor.tsx:746-756 | the new edge runs from the source to the new node |
| `ConditionEditor.DropRule` | src/components/ConditionEditor.tsx:714-764 | a drop near an existing node changes nothing; otherwise one node and one edge are appended, placed 20 right and 40 up, and no existing node centre is within 50 of the drop |
| `ConditionEditor.Editor.constructor` | src/components/ConditionEditor.tsx:52-60 | the editor starts with an empty canvas, the condition's name or `Untitled`, canvas mode and no drag |
| `ConditionEditor.Editor.Initialize` | src/components/ConditionEditor.tsx:67-89 | an existing condition is parsed onto the canvas and its name taken; no condition gives the starter graph |
| `ConditionEditor.Editor.Save` | src/components/ConditionEditor.tsx:112-141 | the saved condition is the canvas's text and effects, or the sentence form's condition renamed |
| `ConditionEditor.Editor.ConditionChange` | src/components/ConditionEditor.tsx:197-206 | a change from the sentence form with a non-blank expression replaces the canvas by its parse; otherwise the canvas is kept |
| `ConditionEditor.Editor.ViewModeChange` | src/components/ConditionEditor.tsx:208-225 | switching to sentences records the canvas's expression and effects as the current condition at once |
| `ConditionEditor.Editor.Rename` | src/components/ConditionEditor.tsx:242 | typing a name sets it and nothing else |
| `ConditionEditor.Editor.AddNode` | src/components/ConditionEditor.tsx:183-195 | a node of the chosen kind with its default data is appended; edges stay |
| `ConditionEditor.Editor.ConnectStart` | src/components/ConditionEditor.tsx:704-712 | a drag starts only from a source handle of a node that exists |
| `ConditionEditor.Editor.ConnectEnd` | src/components/ConditionEditor.tsx:714-764 | ending a drag on the pane applies the drop rule; any end clears the drag state; no drag, no change |
| `ConditionEditor.Editor.MouseMove` | src/components/ConditionEditor.tsx:767-794 | while dragging, the ghost node is the would-be child at the mouse position, or none near an existing node |
| `SentenceView.ConnectorOf` | src/components/ConditionSentenceView.tsx:500 | the connector read is exactly the token when it is `AND` or `OR` |
| `SentenceView.OperatorChoicesAreOperators` | src/components/ConditionSentenceView.tsx:24-31 | the form offers exactly the six clause operators in the pattern's order |
| `SentenceView.ParseConditionToSentences` | src/components/ConditionSentenceView.tsx:491-530 | the loop over every other split part returns the sentences the parser describes |
| `SentenceView.CollectEveryOther` | src/components/ConditionSentenceView.tsx:498-513 | the loop keeps the matching clause parts `0, 2, 4 …` in order |
| `SentenceView.EmptyCases` | src/components/ConditionSentenceView.tsx:491-530 | empty text, text that matches no clause, and connector text with no matching part all give one blank sentence, which generates no text |
| `SentenceView.KeptSentences` | src/components/ConditionSentenceView.tsx:542 | the generator keeps exactly the complete sentences: every kept sentence is complete and from the input, every complete sentence of the input is kept, and the whole input when all are complete |
| `SentenceView.KeptConcat` | src/components/ConditionSentenceView.tsx:542 | the filter keeps order: filtering two lists one after the other is filtering each and concatenating |
| `SentenceView.GenerateExpressionFromSentences` | src/components/ConditionSentenceView.tsx:541-563 | the method returns the expression the generator describes |
| `SentenceView.JoinClauses` | src/components/ConditionSentenceView.tsx:557-561 | the loop joins the clauses with each later sentence's connector, `AND` by default |
| `SentenceView.ExpressionShape` | src/components/ConditionSentenceView.tsx:541-563 | no complete sentence gives the empty text, one gives its bare clause, two or more `( … )` around the chain |
| `SentenceView.EmptySentenceNoText` | src/components/ConditionSentenceView.tsx:532-539 | a blank sentence generates no text |
| `SentenceView.SentenceAdded` | src/components/ConditionSentenceView.tsx:139-145 | adding appends one blank `==` sentence, with connector `AND` exactly when the list was not empty |
| `SentenceView.SentenceRemoved` | src/components/ConditionSentenceView.tsx:147-155 | removing drops the sentences with the id and clears the new first sentence's connector |
| `SentenceView.SentenceUpdated` | src/components/ConditionSentenceView.tsx:157-163 | the sentences with the id get the patch, the others stay |
| `SentenceView.HeadClearKept` | src/components/ConditionSentenceView.tsx:139-163 | adding, removing and updating keep the first sentence free of a connector |
| `SentenceView.EffectUpdated` | src/components/ConditionSentenceView.tsx:173-179 | the effect at the index gets the patch, the others stay |
| `SentenceView.AllowedAdded` | src/components/ConditionSentenceView.tsx:181-187 | a blank value changes nothing; otherwise the trimmed value is appended to that effect's allowed values and nothing else changes |
| `SentenceView.AllowedRemoved` | src/components/ConditionSentenceView.tsx:189-194 | `splice` removes one allowed value of that effect and nothing else changes |
| `SentenceView.DefaultRemoved` | src/components/ConditionSentenceView.tsx:460-465 | `splice` removes one default value of that effect and nothing else changes |
| `SentenceView.AddThenRemoveAllowed` | src/components/ConditionSentenceView.tsx:181-194 | adding a value and removing it at its index restores the effects |
| `SentenceView.Committed` | src/components/ConditionSentenceView.tsx:89-111 | the timer emits a condition exactly when there is text or a condition and it differs from the last one in expression or effects; the emitted condition keeps the id and name |
| `SentenceView.ChangedOnlyByIdOrExpression` | src/components/ConditionSentenceView.tsx:63-65 | the form re-reads its condition exactly when the id or the expression changed, not the effects or the name |
| `SentenceView.Form.constructor` | src/components/ConditionSentenceView.tsx:55-58 | the form starts with no sentences, no effects, no last condition and no pending commit |
| `SentenceView.Form.Init` | src/components/ConditionSentenceView.tsx:61-81 | a changed condition with text is parsed into sentences; a changed empty one gives a blank sentence and the default effect; an unchanged one leaves the form |
| `SentenceView.Form.AddSentence` | src/components/ConditionSentenceView.tsx:139-145 | the sentences become `SentenceAdded` of the old ones; nothing else changes |
| `SentenceView.Form.RemoveSentence` | src/components/ConditionSentenceView.tsx:147-155 | the sentences become `SentenceRemoved` of the old ones; nothing else changes |
| `SentenceView.Form.UpdateSentence` | src/components/ConditionSentenceView.tsx:157-163 | the sentences become `SentenceUpdated` of the old ones; nothing else changes |
| `SentenceView.Form.AddEffect` | src/components/ConditionSentenceView.tsx:165-167 | one default effect is appended |
| `SentenceView.Form.RemoveEffect` | src/components/ConditionSentenceView.tsx:169-171 | the effect at the index is dropped |
| `SentenceView.Form.UpdateEffect` | src/components/ConditionSentenceView.tsx:173-179 | the effect at the index is patched |
| `SentenceView.Form.AddAllowedValue` | src/components/ConditionSentenceView.tsx:181-187 | the effects become `AllowedAdded` of the old ones |
| `SentenceView.Form.RemoveAllowedValue` | src/components/ConditionSentenceView.tsx:189-194 | the effects become `AllowedRemoved` of the old ones |
| `SentenceView.Form.RemoveDefaultValue` | src/components/ConditionSentenceView.tsx:460-465 | the effects become `DefaultRemoved` of the old ones |
| `SentenceView.Form.DebouncedUpdate` | src/components/ConditionSentenceView.tsx:84-112 | an edit replaces any pending commit by one due 500 later over the current sentences and effects |
| `SentenceView.Form.TimerFires` | src/components/ConditionSentenceView.tsx:89-111 | when the commit is due it emits `Committed` of the snapshot and clears the pending commit |
| `SentenceRoundTrip.RoundTrip` | src/components/ConditionSentenceView.tsx:491-563 | two or more complete plain sentences, generated and parsed back, give the same fields, operators, values and connectors, the first without one |
| `SentenceRoundTrip.SingleRoundTrip` | src/components/ConditionSentenceView.tsx:518-549 | one complete plain sentence, generated and parsed back, gives the same field, operator and value |
| `SentenceRoundTrip.LongOperatorMisread` | src/components/ConditionSentenceView.tsx:518 | one sentence with `>=` or `<=` comes back with `>` or `<` and value `= v` |
| `SentenceRoundTrip.RegenerateStable` | src/components/ConditionSentenceView.tsx:491-563 | generating, parsing and generating again gives the same text |
| `ConditionDashboard.SimpleShape` | src/components/ConditionDashboard.tsx:20-27 | when the simple pattern matches, the headline is its trimmed field, an operator of the six and a non-empty quote-free value |
| `ConditionDashboard.SimpleParse` | src/components/ConditionDashboard.tsx:20-27 | `F op 'V' …` reads as field `trim(F)`, operator `op`, value `V` |
| `ConditionDashboard.ComplexUnreachable` | src/components/ConditionDashboard.tsx:30-37 | whatever the complex pattern matches the simple one matches too, so its branch never runs |
| `ConditionDashboard.PartImpliesSimple` | src/components/ConditionDashboard.tsx:40-47 | whatever the part pattern matches the simple one matches too, so the last-segment branch never runs |
| `ConditionDashboard.FallbackParse` | src/components/ConditionDashboard.tsx:40-53 | text the simple pattern misses reads as `applies_to_part == unknown` when it mentions that field and as `Unknown == Unknown` otherwise |
| `ConditionDashboard.HeadlineComplete` | src/components/ConditionDashboard.tsx:18-54 | every headline has one of the six operators and a non-empty value: parsing never fails |
| `ConditionDashboard.CardHeadline` | src/components/ConditionDashboard.tsx:227-229 | the card shows a non-empty field, operator and quoted value, `Unknown` exactly for a missing field |
| `ConditionDashboard.FilteredMembers` | src/components/ConditionDashboard.tsx:86-99 | a condition is listed exactly when it is in the list and passes the search, the field filter and the target filter |
| `ConditionDashboard.FilteredConcat` | src/components/ConditionDashboard.tsx:86-99 | filtering keeps the list's order |
| `ConditionDashboard.NoFilterShowsAll` | src/components/ConditionDashboard.tsx:86-99 | an empty search with both filters on `all` shows every condition |
| `ConditionDashboard.SearchIgnoresCase` | src/components/ConditionDashboard.tsx:88-90 | the search gives the same answer for a query and its lower-case form |
| `ConditionDashboard.SortedSet` | src/components/ConditionDashboard.tsx:76-77 | `Array.from(new Set(…)).sort()` is strictly sorted and holds exactly the input's strings |
| `ConditionDashboard.IfFieldOptionsShape` | src/components/ConditionDashboard.tsx:75-78 | the field options are sorted without repeats and are exactly the non-empty headline fields |
| `ConditionDashboard.TargetFieldOptionsShape` | src/components/ConditionDashboard.tsx:80-83 | the target options are sorted without repeats and are exactly the fields some effect sets |
| `ConditionDashboard.IfOptionSelects` | src/components/ConditionDashboard.tsx:75-99 | choosing any offered field option leaves at least one condition shown |
| `ConditionDashboard.TargetOptionSelects` | src/components/ConditionDashboard.tsx:80-99 | choosing any offered target option leaves at least one condition shown |
| `ConditionDashboard.StatsBounds` | src/components/ConditionDashboard.tsx:164-189 | the shown totals never exceed those of the whole list |
| `ConditionDashboard.UnfilteredStats` | src/components/ConditionDashboard.tsx:164-189 | without filters the totals are the number of conditions, of effects and of target options |
| `ConditionDashboard.UniqueFieldsAreOptions` | src/components/ConditionDashboard.tsx:189 | the unique-field count equals the number of target options |
| `ConditionDashboard.ValueBadges` | src/components/ConditionDashboard.tsx:277-286 | at most four values are shown, followed by `+n more` for the rest |
| `ConditionDashboard.ValueBadgesCount` | src/components/ConditionDashboard.tsx:282-285 | two lists with the same `+n more` badge have the same length |
| `ConditionListView.OperatorLabelTable` | src/components/ConditionListView.tsx:57-67 | each operator gets its phrase and any other text is shown as it is |
| `ConditionListView.OperatorPhrases` | src/components/ConditionListView.tsx:59-64 | the six phrases, spelled out |
| `ConditionListView.OperatorLabelsDistinct` | src/components/ConditionListView.tsx:57-67 | each operator's phrase differs from the operator and from every other operator's phrase |
| `ConditionListView.OperatorKeys` | src/components/ConditionListView.tsx:58-65 | the table covers exactly the six clause operators |
| `ConditionListView.PhrasesDistinct` | src/components/ConditionListView.tsx:58-65 | no two operators share a phrase and every phrase is longer than its operator |
| `ConditionListView.FieldLabelTable` | src/components/ConditionListView.tsx:70-83 | each known field gets its label and any other field is shown as it is |
| `ConditionListView.IfLineSpellsOperator` | src/components/ConditionListView.tsx:240-245 | the `If` line is the field label, the operator phrase and the value, and never shows the bare operator |
| `ConditionListView.Phrases` | src/components/ConditionListView.tsx:250-260 | one phrase per effect, in order |
| `ConditionListView.ThenLineJoin` | src/components/ConditionListView.tsx:248-261 | the `Then` line is the effect phrases joined by `, ` |
| `ConditionListView.PhraseVerb` | src/components/ConditionListView.tsx:252 | an effect's phrase starts with `Sets` exactly when it is shown and with `Hides` exactly when it is not |
| `ConditionStore.WithoutId` | src/App.tsx:660-662 | deleting keeps exactly the conditions with another id |
| `ConditionStore.WithoutIdAbsent` | src/App.tsx:660-662 | after deleting, no condition has the id |
| `ConditionStore.WithoutIdShrinks` | src/App.tsx:660-662 | deleting shortens the list exactly when some condition had the id |
| `ConditionStore.WithoutIdUnique` | src/App.tsx:660-662 | deleting keeps ids unique |
| `ConditionStore.ReplaceById` | src/App.tsx:666 | each condition with the saved id is replaced, the others stay |
| `ConditionStore.ReplaceByIdFacts` | src/App.tsx:666 | replacing keeps ids and their uniqueness, changes nothing for an unknown id, and with unique ids is an update at one index |
| `ConditionStore.Saved` | src/App.tsx:664-669 | saving an edit replaces by id; saving a new condition appends it with the clock as its id |
| `ConditionStore.SavedUnique` | src/App.tsx:664-669 | saving keeps ids unique when the clock id is fresh |
| `ConditionStore.ClauseHeadline` | src/App.tsx:8-643 | every stored one-clause condition `f == 'v'` reads on the dashboard as field `f`, `==`, value `v` |
| `ConditionStore.BothClausesHeadline` | src/App.tsx:8-643 | every stored two-clause condition reads as its first clause with field `( f` |
| `ConditionStore.PartHeadline` | src/App.tsx:13 | a part condition reads with its whole identifier as the value |
| `ConditionStore.TwoClauseHeadline` | src/App.tsx:518 | a category condition with two clauses reads as its level-1 clause |
| `ConditionStore.App.constructor` | src/App.tsx:646-648 | the store starts on the list view with the seed conditions and nothing being edited |
| `ConditionStore.App.Create` | src/App.tsx:650-653 | creating opens the editor with no condition |
| `ConditionStore.App.Edit` | src/App.tsx:655-658 | editing opens the editor on that condition |
| `ConditionStore.App.Delete` | src/App.tsx:660-662 | deleting removes the id from the list and leaves the view |
| `ConditionStore.App.Save` | src/App.tsx:664-672 | saving stores the condition as `Saved` says and goes to the dashboard |
| `ConditionStore.App.Back` | src/App.tsx:674-677 | going back shows the list and drops the edited condition |
| `ActionNode.WithList` | src/components/flow-nodes/ActionNode.tsx:67-153 | setting one value list changes that key only |
| `ActionNode.WithAdded` | src/components/flow-nodes/ActionNode.tsx:67-89 | the node's list gains the value at its end and no other key of any node changes |
| `ActionNode.WithRemoved` | src/components/flow-nodes/ActionNode.tsx:91-109 | the node's list loses the value at the index and no other key of any node changes |
| `ActionNode.AddThenRemove` | src/components/flow-nodes/ActionNode.tsx:67-109 | adding a value and removing it at the last index restores the list |
| `ActionNode.Badge` | src/components/flow-nodes/ActionNode.tsx:213-231 | a value up to 12 characters is shown whole, a longer one as its first 12 and `...` |
| `ActionNode.BadgesShape` | src/components/flow-nodes/ActionNode.tsx:213-231 | at most three badges, then `+n` for the rest, each at most 15 characters |
| `ActionNode.ActionNodeView.constructor` | src/components/flow-nodes/ActionNode.tsx:35-37 | both input boxes start empty |
| `ActionNode.ActionNodeView.TypeValue` | src/components/flow-nodes/ActionNode.tsx:35 | typing sets the allowed-value box only |
| `ActionNode.ActionNodeView.TypeDefault` | src/components/flow-nodes/ActionNode.tsx:36 | typing sets the default-value box only |
| `ActionNode.ActionNodeView.UpdateField` | src/components/flow-nodes/ActionNode.tsx:39-51 | the node's field is set on the canvas |
| `ActionNode.ActionNodeView.UpdateShow` | src/components/flow-nodes/ActionNode.tsx:53-65 | the node's show flag is set on the canvas |
| `ActionNode.ActionNodeView.AddAllowedValue` | src/components/flow-nodes/ActionNode.tsx:67-89 | a blank box changes nothing; otherwise the trimmed value is appended and the box cleared |
| `ActionNode.ActionNodeView.RemoveAllowedValue` | src/components/flow-nodes/ActionNode.tsx:91-109 | the allowed value at the index is removed |
| `ActionNode.ActionNodeView.AddDefaultValue` | src/components/flow-nodes/ActionNode.tsx:111-133 | a blank box changes nothing; otherwise the trimmed value is appended and the box cleared |
| `ActionNode.ActionNodeView.RemoveDefaultValue` | src/components/flow-nodes/ActionNode.tsx:135-153 | the default value at the index is removed |
| `OperatorNode.OfferedVersusParsed` | src/components/flow-nodes/OperatorNode.tsx:9-19 | the node offers nine operators: the six clause operators in order and three word operators no parser knows |
| `OperatorNode.UpdateNodeData` | src/components/flow-nodes/OperatorNode.tsx:24-36 | choosing an operator sets it on that node only |
| `TriggerNode.FieldsOffered` | src/components/flow-nodes/TriggerNode.tsx:9-16 | six distinct fields are offered |
| `TriggerNode.CustomLabel` | src/components/flow-nodes/TriggerNode.tsx:51 | a field's label drops `custom_fields.` and turns only the first underscore into a space |
| `TriggerNode.UpdateNodeData` | src/components/flow-nodes/TriggerNode.tsx:21-33 | choosing a field sets it on that node only |
| `LogicalNode.Shown` | src/components/flow-nodes/LogicalNode.tsx:40 | the node shows `AND` exactly when its operator is missing, empty or `AND` |
| `LogicalNode.ShownIsWritten` | src/components/flow-nodes/LogicalNode.tsx:40 | the first logical node shows the connector the generator writes |
| `LogicalNode.ShownOffered` | src/components/flow-nodes/LogicalNode.tsx:9-12 | an offered connector is shown as chosen |
| `LogicalNode.UpdateNodeData` | src/components/flow-nodes/LogicalNode.tsx:17-29 | choosing a connector sets it on that node only |
| `ValueNode.Shown` | src/components/flow-nodes/ValueNode.tsx:36 | the box is blank exactly when the node has no value or an empty one, and otherwise shows the node's own value |
| `ValueNode.EmptyValueNoText` | src/components/flow-nodes/ValueNode.tsx:36 | while the first value box shows nothing, a graph without a logical node generates no text |
| `ValueNode.UpdateNodeData` | src/components/flow-nodes/ValueNode.tsx:12-24 | typing sets the value of that node only |
| `NodeTypeDropdown.OptionsAreKinds` | src/components/flow-nodes/NodeTypeDropdown.tsx:13-19 | the dropdown offers exactly the five node kinds |
| `NodeTypeDropdown.WithType` | src/components/flow-nodes/NodeTypeDropdown.tsx:26-40 | the node with the id gets the new kind and that kind's default data, keeping its position; other nodes stay |
| `NodeTypeDropdown.Dropdown.constructor` | src/components/flow-nodes/NodeTypeDropdown.tsx:22-23 | the menu starts closed with no close pending |
| `NodeTypeDropdown.Dropdown.HandleTypeChange` | src/components/flow-nodes/NodeTypeDropdown.tsx:26-42 | a different kind retypes the node, the same kind changes nothing, and the menu closes |
| `NodeTypeDropdown.Dropdown.MouseEnter` | src/components/flow-nodes/NodeTypeDropdown.tsx:44-51 | hovering the node opens the menu and cancels a pending close |
| `NodeTypeDropdown.Dropdown.MouseLeave` | src/components/flow-nodes/NodeTypeDropdown.tsx:53-58 | leaving the node schedules a close |
| `NodeTypeDropdown.Dropdown.CloseTimerFires` | src/components/flow-nodes/NodeTypeDropdown.tsx:55-57 | the scheduled close closes the menu |
| `NodeTypeDropdown.Dropdown.DropdownMouseEnter` | src/components/flow-nodes/NodeTypeDropdown.tsx:60-66 | entering the menu cancels a pending close |
| `NodeTypeDropdown.Dropdown.DropdownMouseLeave` | src/components/flow-nodes/NodeTypeDropdown.tsx:68-71 | leaving the menu closes it |
| `EnhancedHandle.SameNextNodeType` | src/components/flow-nodes/EnhancedHandle.tsx:18-27 | the handle's next-kind table agrees with the editor's for every kind |
| `EnhancedHandle.PlusClickShape` | src/components/flow-nodes/EnhancedHandle.tsx:39-84 | a plus click on a source handle of an existing node appends one node of the next kind 250 to its right and one edge to it; otherwise nothing changes |
| `EnhancedHandle.Handle.constructor` | src/components/flow-nodes/EnhancedHandle.tsx:13 | a handle starts not hovered |
| `EnhancedHandle.Handle.MouseEnter` | src/components/flow-nodes/EnhancedHandle.tsx:29-33 | only a source handle becomes hovered |
| `EnhancedHandle.Handle.MouseLeave` | src/components/flow-nodes/EnhancedHandle.tsx:35-37 | leaving clears the hover |
| `EnhancedHandle.Handle.PlusClick` | src/components/flow-nodes/EnhancedHandle.tsx:39-84 | the canvas becomes the plus-click graph and the hover is cleared |
| `EnhancedHandle.Handle.Click` | src/components/flow-nodes/EnhancedHandle.tsx:110 | a click acts only on a hovered source handle |
| `FieldOptions.LookupFinds` | src/data/fieldOptions.ts:116-120 | with distinct keys, looking up a key finds its own options |
| `FieldOptions.LookupListed` | src/data/fieldOptions.ts:116-120 | whatever a lookup finds is an entry of the table |
| `FieldOptions.TableShape` | src/data/fieldOptions.ts:2-113 | the table has twelve entries with distinct keys |
| `FieldOptions.EntriesNonEmpty` | src/data/fieldOptions.ts:2-113 | every entry lists at least one option |
| `FieldOptions.HasOptionsIffNonEmpty` | src/data/fieldOptions.ts:123-126 | a field has predefined options exactly when its option list is non-empty |
| `FieldOptions.PrefixedSameOptions` | src/data/fieldOptions.ts:116-126 | a field with or without the `custom_fields.` prefix has the same options |
| `FieldOptions.KeysTakePrefix` | src/data/fieldOptions.ts:116-120 | every key of the table is found both bare and with the prefix |

`ConditionListView.tsx` parses and filters with code identical to
`ConditionDashboard.tsx:18-54` and `:75-99` (its lines 18-54 and 104-128), so the
`ConditionDashboard` members above describe both views.

## Left out

- Rendering, styling and markup of every component (cards, badges' colours, icons, the
  floating toolbar's undo, redo, lock and corner buttons, which do nothing).
- The floating toolbar's own menu flag (`showNodeMenu`): only its effect, adding a node
  (`ConditionEditor.Editor.AddNode`), is modelled.
- React Flow itself: `screenToFlowPosition` (the mouse position arrives already in
  canvas coordinates), `updateNodeInternals`, `useNodesState` change handlers, and
  `onConnect` with `addEdge`, whose edge construction lives in that library.
- `handleTest`: it only shows the generated text and the readable sentence in an alert;
  both functions are modelled.
- `console.log` calls.
- Timers: the editor's 100 ms initialisation delay and the handle's and dropdown's short
  delays are not timed; the pending action is an explicit flag or snapshot, and the form's
  500 ms commit is a due time compared with a clock parameter.
- `Date.now()` and `Math.random()` are parameters, not clocks or random sources.
- Positions are integers; `Math.sqrt(dx² + dy²) < 50` is modelled as `dx² + dy² < 2500`,
  which agrees for every integer position.
- `JSON.stringify` comparison of effects is modelled as equality of the effect records.
- Lookups in the JavaScript object tables (`operatorMap[op]`, `fieldMap[f]`,
  `fieldOptions[f]`, the next-kind table) are modelled for the listed keys; keys
  inherited from `Object.prototype` such as `constructor` are not.
- The `optional` and `mandatory` flags of an effect are carried but not reconciled
  between the canvas and the form.
- `expression_ast` is not modelled; every record leaves it empty.
- The thirty stored conditions of `src/App.tsx` are modelled as data
  (`ConditionStore.Seeds`), but no lemma is stated over the whole list: the headline
  properties are proved for the three shapes those records take
  (`ConditionStore.ClauseHeadline`, `ConditionStore.BothClausesHeadline`,
  `ConditionStore.PartHeadline`).
- `Text.ToLower`: case mapping is modelled for ASCII letters only; JavaScript's
  `toLowerCase` and `toUpperCase` map case over all of Unicode and can change the length
  (`İ` lower-cases to two code units, `ß` upper-cases to `SS`). So the dashboard's
  case-insensitive search (`ConditionDashboard.FilteredMembers`,
  `ConditionDashboard.SearchIgnoresCase`) treats non-ASCII letters of different case as
  different (a condition named `Équipe` is not found by `é`), and
  `ConditionEditor.Capitalize`, used by `ConditionEditor.SmartName`, upper-cases only an
  ASCII first letter.
- `ConditionEditor.ReadableSentence`: an effect with an empty `fields` list makes the
  source throw on `e.fields[0].replace`; the model requires every effect to have a field.
  Every effect the editor generates and every stored condition has one.
- `ConditionEditor.SmartName`: a trigger node without a field makes the source throw
  on `includes`; the model requires the field to be present rather than modelling the
  exception.
- `ConditionEditor.Editor.Save`: in sentence mode with no current condition the source
  spreads `null` into an object holding only a name; the model keeps the name on an
  empty condition record.
- `SentenceView.Form.AddAllowedValue` and `SentenceView.Form.RemoveAllowedValue`,
  `SentenceView.Form.RemoveDefaultValue`: an effect index out of range makes the
  source read a property of `undefined` and throw; the model requires the index to be in
  range.
- `SentenceRoundTrip.RoundTrip`: stated for sentences whose field, operator and value
  are plain (no connector words, parentheses, quotes or line breaks inside them, and a
  one-character-led operator); other sentences are covered by
  `SentenceRoundTrip.LongOperatorMisread` and the lemmas on the clause pattern.
- `src/components/ReactFlowWrapper.tsx`, `src/components/Code-component-14-158.tsx`,
  `src/components/flow-nodes/NodeHeader.tsx` and `src/imports/FloatingActions-7-6560.tsx`
  are presentation only and are not part of this model.
