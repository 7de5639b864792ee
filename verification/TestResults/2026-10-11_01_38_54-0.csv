TestResult.DisplayName,TestResult.Outcome,TestResult.Duration,TestResult.ResourceCount,RandomSeed
Sniff.ContentSpec (well-formedness),Passed,00:00:00.4146944,635667,1
Sniff.ContentSpecEarlierAttemptsFailed (well-formedness),Passed,00:00:00.2875883,214272,1
Sniff.ContentSpecEarlierAttemptsFailed (correctness),Passed,00:00:00.1254539,191675,1
